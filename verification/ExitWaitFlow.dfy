/** Where the processes are in fork, exit and wait over whole runs, told from the actions: what
    each is in the middle of, that no slot is leaked, that exit does not return, that wait_lock
    is given back, and who has been killed. */
module ExitWaitFlow {
  import opened ExitWait
  import opened ExitWaitLaws
  import opened ExitWaitProof
  import opened ProcModes
  import opened Seals

  // ---------- what a process is in the middle of ----------

  datatype Phase = Outside | Forking(c: nat) | Exiting(status: int) | Dead | Scanning | Sleeping

  function PhaseOf(pc: Pc): Phase {
    match pc
    case Elsewhere => Outside
    case ForkUsed(c) => Forking(c)
    case ForkParent(c) => Forking(c)
    case ExitStart(status) => Exiting(status)
    case Reparent(_, status) => Exiting(status)
    case ReWake(_, _, status) => Exiting(status)
    case WakeParent(_, status) => Exiting(status)
    case ExitFinal(status) => Exiting(status)
    case Gone => Dead
    case WaitScan(_, _) => Scanning
    case _ => Sleeping
  }

  /** What the action a makes of the phase of process i with the given pid. */
  function NextPhase(a: Action, i: nat, pid: nat, ph: Phase): Phase {
    if a.i != i then if a.DoReap? && a.pid == pid then Outside else ph
    else
      match a
      case DoTakeSlot(_, c) => Forking(c)
      case DoFailFork(_) => Outside
      case DoStartChild(_) => Outside
      case DoBeginExit(_, status) => Exiting(status)
      case DoBecomeZombie(_) => Dead
      case DoBeginWait(_) => Scanning
      case DoReap(_, _, _) => Outside
      case DoCopyFails(_) => Outside
      case DoNoChildren(_) => Outside
      case DoWaitKilled(_) => Outside
      case DoScanEnd(_) => Sleeping
      case _ => ph
  }

  ghost function Phases(states: seq<State>, acts: seq<Action>, t: nat, i: nat): Phase
    requires t <= |acts| < |states|
  {
    if t == 0 then Outside
    else if i < |states[t - 1].procs|
    then NextPhase(acts[t - 1], i, states[t - 1].procs[i].pid, Phases(states, acts, t - 1, i))
    else Outside
  }

  lemma OwnForkPhase(s: State, a: Action, s': State)
    requires Inv(s) && Step(s, a, s') && a.i < |s.procs| == |s'.procs| && ForkAct(a)
    ensures PhaseOf(s'.procs[a.i].pc) == NextPhase(a, a.i, s.procs[a.i].pid, PhaseOf(s.procs[a.i].pc))
  {
    assert Shown(true);
  }

  lemma OwnExitPhase(s: State, a: Action, s': State)
    requires Inv(s) && Step(s, a, s') && a.i < |s.procs| == |s'.procs| && ExitAct(a)
    ensures PhaseOf(s'.procs[a.i].pc) == NextPhase(a, a.i, s.procs[a.i].pid, PhaseOf(s.procs[a.i].pc))
  {
    assert Shown(true);
  }

  lemma OwnWaitPhase(s: State, a: Action, s': State)
    requires Inv(s) && Step(s, a, s') && a.i < |s.procs| == |s'.procs| && WaitAct(a)
    ensures PhaseOf(s'.procs[a.i].pc) == NextPhase(a, a.i, s.procs[a.i].pid, PhaseOf(s.procs[a.i].pc))
  {
    assert Shown(true);
  }

  lemma OwnElsePhase(s: State, a: Action, s': State)
    requires Inv(s) && Step(s, a, s') && a.i < |s.procs| == |s'.procs| && !ForkAct(a) && !ExitAct(a) && !WaitAct(a)
    ensures PhaseOf(s'.procs[a.i].pc) == NextPhase(a, a.i, s.procs[a.i].pid, PhaseOf(s.procs[a.i].pc))
  {
    assert Shown(true);
  }

  lemma ReapedSlot(s: State, a: Action, s': State, i: nat)
    requires Inv(s) && Step(s, a, s') && a.DoReap? && i < |s.procs| && a.i < |s.procs|
    ensures Frees(s, a, i) <==> a.pid == s.procs[i].pid
    ensures i < |s'.procs| && (Frees(s, a, i) ==> s'.procs[i].pc.Elsewhere?)
  {
    assert Shown(true);
    var k := s.procs[a.i].pc.k;
    assert One(s, k) && One(s, i) && Two(s, k, i);
  }

  lemma FreedSlotIsOutside(s: State, a: Action, s': State, i: nat)
    requires Inv(s) && Step(s, a, s') && a.DoFailFork? && i < |s.procs| && a.i < |s.procs| && Frees(s, a, i)
    ensures s.procs[i].mode.USED? && s.procs[i].pc.Elsewhere? && a.i != i
  {
    assert Two(s, a.i, i) && One(s, i);
  }

  lemma PhaseStep(s: State, a: Action, s': State, i: nat)
    requires Inv(s) && Step(s, a, s') && i < |s.procs|
    ensures i < |s'.procs|
    ensures PhaseOf(s'.procs[i].pc) == NextPhase(a, i, s.procs[i].pid, PhaseOf(s.procs[i].pc))
  {
    WhatChanges(s, a, s', i);
    if a.i == i {
      if ForkAct(a) {
        OwnForkPhase(s, a, s');
      } else if ExitAct(a) {
        OwnExitPhase(s, a, s');
      } else if WaitAct(a) {
        OwnWaitPhase(s, a, s');
      } else {
        OwnElsePhase(s, a, s');
      }
    } else if a.DoReap? {
      ReapedSlot(s, a, s', i);
    } else if a.DoFailFork? && Frees(s, a, i) {
      FreedSlotIsOutside(s, a, s', i);
    }
  }

  /** Every process is in the middle of what its own calls say. */
  lemma {:induction false} PhasesFollow(states: seq<State>, acts: seq<Action>, t: nat, i: nat)
    requires IsRun(states, acts) && t < |states| && i < |states[t].procs|
    ensures PhaseOf(states[t].procs[i].pc) == Phases(states, acts, t, i)
  {
    if t == 0 {
      assert states[0].procs[i].pc.Elsewhere?;
    } else {
      var s, a := states[t - 1], acts[t - 1];
      StepOfRun(states, acts, t - 1);
      SameTable(s, a, states[t]);
      PhasesFollow(states, acts, t - 1, i);
      PhaseStep(s, a, states[t], i);
    }
  }

  // ---------- exit does not return ----------

  lemma ExitingStep(s: State, a: Action, s': State, i: nat, status: int)
    requires Inv(s) && Step(s, a, s') && i < |s.procs|
    requires StatusOf(s.procs[i]) == Exits(status)
    ensures i < |s'.procs|
    ensures (s'.procs[i].pid == s.procs[i].pid && StatusOf(s'.procs[i]) == Exits(status))
            || (a.DoReap? && a.pid == s.procs[i].pid && a.status == status)
  {
    WhatChanges(s, a, s', i);
    assert One(s, i);
    if a.i == i {
      OwnExiting(s, a, s', status);
    } else if Frees(s, a, i) {
      ReapedStatus(s, a, s', i, status);
    } else if a.DoTakeSlot? && a.c == i {
      NewSlot(s, a, s');
    }
  }

  lemma OwnExiting(s: State, a: Action, s': State, status: int)
    requires Inv(s) && Step(s, a, s') && a.i < |s.procs| == |s'.procs| && StatusOf(s.procs[a.i]) == Exits(status)
    ensures s'.procs[a.i].pid == s.procs[a.i].pid && StatusOf(s'.procs[a.i]) == Exits(status)
  {
    assert One(s, a.i);
    if ExitAct(a) {
      ExitGoesOn(s, a, s', status);
    } else {
      ExitStands(s, a, s', status);
    }
  }

  lemma ExitGoesOn(s: State, a: Action, s': State, status: int)
    requires a.i < |s.procs| == |s'.procs| && One(s, a.i) && StatusOf(s.procs[a.i]) == Exits(status)
    requires Step(s, a, s') && ExitAct(a)
    ensures s'.procs[a.i].pid == s.procs[a.i].pid && StatusOf(s'.procs[a.i]) == Exits(status)
  {
    assert Shown(true);
  }

  lemma ExitStands(s: State, a: Action, s': State, status: int)
    requires a.i < |s.procs| == |s'.procs| && One(s, a.i) && StatusOf(s.procs[a.i]) == Exits(status)
    requires Step(s, a, s') && !ExitAct(a)
    ensures s'.procs[a.i].pid == s.procs[a.i].pid && StatusOf(s'.procs[a.i]) == Exits(status)
  {
    assert Shown(true);
  }

  lemma ReapedStatus(s: State, a: Action, s': State, i: nat, status: int)
    requires Inv(s) && Step(s, a, s') && i < |s.procs| && a.i < |s.procs| && a.i != i && Frees(s, a, i)
    requires StatusOf(s.procs[i]) == Exits(status)
    ensures a.DoReap? && a.pid == s.procs[i].pid && a.status == status
  {
    assert Shown(true);
    assert One(s, i) && Two(s, a.i, i);
  }

  /** Reaped by a kwait between u and t. */
  ghost predicate ReapedBetween(acts: seq<Action>, u: nat, t: nat, pid: nat, status: int) {
    exists v {:trigger acts[v]} ::
      u < v < t && v < |acts| && acts[v].DoReap? && acts[v].pid == pid && acts[v].status == status
  }

  /** After kexit(status) a process stays in it, with its pid, until a kwait returns both. */
  lemma {:induction false} ExitIsFinal(states: seq<State>, acts: seq<Action>, u: nat, t: nat, i: nat, status: int)
    requires IsRun(states, acts) && u < t < |states| && acts[u] == DoBeginExit(i, status)
    ensures i < |states[u].procs| && i < |states[t].procs|
    ensures var pid := states[u].procs[i].pid;
            || ReapedBetween(acts, u, t, pid, status)
            || (states[t].procs[i].pid == pid && StatusOf(states[t].procs[i]) == Exits(status))
    decreases t
  {
    StepOfRun(states, acts, t - 1);
    SameTable(states[t - 1], acts[t - 1], states[t]);
    if t == u + 1 {
      Enters(states[u], acts[u], states[t]);
    } else {
      ExitIsFinal(states, acts, u, t - 1, i, status);
      var pid := states[u].procs[i].pid;
      if !ReapedBetween(acts, u, t - 1, pid, status) {
        ExitingStep(states[t - 1], acts[t - 1], states[t], i, status);
      }
    }
  }

  lemma Enters(s: State, a: Action, s': State)
    requires Step(s, a, s') && a.DoBeginExit?
    ensures a.i < |s.procs| == |s'.procs| && s'.procs[a.i].pid == s.procs[a.i].pid
    ensures StatusOf(s'.procs[a.i]) == Exits(a.status)
  {
    assert Shown(true);
  }

  // ---------- no slot is leaked ----------

  ghost predicate ForksInto(s: State, i: nat, c: nat) {
    i < |s.procs| && (s.procs[i].pc.ForkUsed? || s.procs[i].pc.ForkParent?) && s.procs[i].pc.c == c
  }

  lemma UsedStep(s: State, a: Action, s': State, c: nat)
    requires Step(s, a, s') && c < |s.procs| == |s'.procs| && s'.procs[c].mode.USED?
    ensures s.procs[c].mode.USED? || (a.DoTakeSlot? && a.c == c && ForksInto(s', a.i, c))
  {
    if ForkAct(a) {
      UsedByFork(s, a, s', c);
    } else {
      UsedStays(s, a, s', c);
    }
  }

  lemma UsedByFork(s: State, a: Action, s': State, c: nat)
    requires Step(s, a, s') && ForkAct(a) && c < |s.procs| == |s'.procs| && s'.procs[c].mode.USED?
    ensures s.procs[c].mode.USED? || (a.DoTakeSlot? && a.c == c && ForksInto(s', a.i, c))
  {
    assert Shown(true);
  }

  lemma UsedStays(s: State, a: Action, s': State, c: nat)
    requires Step(s, a, s') && !ForkAct(a) && c < |s.procs| == |s'.procs| && s'.procs[c].mode.USED?
    ensures s.procs[c].mode.USED?
  {
    assert Shown(true);
  }

  lemma ForkerStays(s: State, a: Action, s': State, i: nat, c: nat)
    requires Inv(s) && Step(s, a, s') && ForksInto(s, i, c) && |s'.procs| == |s.procs|
    requires c < |s.procs| && s'.procs[c].mode.USED?
    ensures ForksInto(s', i, c)
  {
    assert One(s, i) && Two(s, i, c);
    WhatChanges(s, a, s', i);
    if a.i == i {
      OwnForker(s, a, s', c);
    } else if Frees(s, a, i) {
      assert One(s, a.i) && Two(s, a.i, i);
      FreedByOthers(s, a, s', i);
    }
  }

  lemma OwnForker(s: State, a: Action, s': State, c: nat)
    requires ForksInto(s, a.i, c) && c < |s.procs| == |s'.procs| && a.i != c && Step(s, a, s')
    requires s'.procs[c].mode.USED?
    ensures ForksInto(s', a.i, c)
  {
    if ForkAct(a) {
      ForkerGoesOn(s, a, s', c);
    } else {
      ForkerStands(s, a, s', c);
    }
  }

  lemma ForkerGoesOn(s: State, a: Action, s': State, c: nat)
    requires ForksInto(s, a.i, c) && c < |s.procs| == |s'.procs| && a.i != c && Step(s, a, s') && ForkAct(a)
    requires s'.procs[c].mode.USED?
    ensures ForksInto(s', a.i, c)
  {
    assert Shown(true);
  }

  lemma ForkerStands(s: State, a: Action, s': State, c: nat)
    requires ForksInto(s, a.i, c) && c < |s.procs| == |s'.procs| && Step(s, a, s') && !ForkAct(a)
    ensures ForksInto(s', a.i, c)
  {
    assert Shown(true);
  }

  lemma FreedByOthers(s: State, a: Action, s': State, i: nat)
    requires Inv(s) && Step(s, a, s') && i < |s.procs| && a.i < |s.procs| && Frees(s, a, i)
    ensures s.procs[i].mode.USED? || s.procs[i].mode.ZOMBIE?
  {
    assert Shown(true);
    assert Two(s, a.i, i);
  }

  lemma NoneUsed(s: State, c: nat)
    requires Boot(s) && c < |s.procs|
    ensures !s.procs[c].mode.USED?
  {
  }

  /** A slot in USED belongs to a fork that is under way. */
  lemma {:induction false} NoSlotIsLeaked(states: seq<State>, acts: seq<Action>, t: nat, c: nat) returns (i: nat)
    requires IsRun(states, acts) && t < |states| && c < |states[t].procs| && states[t].procs[c].mode.USED?
    ensures ForksInto(states[t], i, c)
  {
    if t == 0 {
      NoneUsed(states[0], c);
    } else {
      var s, a := states[t - 1], acts[t - 1];
      StepOfRun(states, acts, t - 1);
      SameTable(s, a, states[t]);
      UsedStep(s, a, states[t], c);
      if s.procs[c].mode.USED? {
        i := NoSlotIsLeaked(states, acts, t - 1, c);
        ForkerStays(s, a, states[t], i, c);
      } else {
        i := a.i;
      }
    }
  }

  // ---------- wait_lock is given back ----------

  function Left(n: nat, k: nat): nat { if k < n then n - k else 0 }

  /** The steps of its holder at pc until wait_lock is free, among n processes. */
  function Remaining(pc: Pc, n: nat): nat {
    match pc
    case Reparent(k, _) => 3 + n + Left(n, k) * (n + 3)
    case ReWake(k, t, _) => 3 + n + Left(n, k + 1) * (n + 3) + 1 + Left(n, t)
    case WakeParent(t, _) => 2 + Left(n, t)
    case ExitFinal(_) => 1
    case WaitScan(k, _) => 3 + Left(n, k)
    case WaitSleep => 2
    case WaitSleepB => 1
    case _ => 0
  }

  lemma OneSlotLess(n: nat, k: nat)
    requires k < n
    ensures Left(n, k) * (n + 3) == Left(n, k + 1) * (n + 3) + n + 3
  {
  }

  lemma HolderStep(s: State, a: Action, s': State)
    requires Inv(s) && Step(s, a, s') && a.i < |s.procs| == |s'.procs| && s.wl == a.i && s'.wl == a.i && !a.DoKill?
    ensures Remaining(s'.procs[a.i].pc, |s.procs|) < Remaining(s.procs[a.i].pc, |s.procs|)
  {
    if ExitAct(a) {
      ExitHolderStep(s, a, s');
    } else {
      WaitHolderStep(s, a, s');
    }
  }

  lemma ExitHolderStep(s: State, a: Action, s': State)
    requires Inv(s) && Step(s, a, s') && a.i < |s.procs| == |s'.procs| && s.wl == a.i && s'.wl == a.i && ExitAct(a)
    ensures Remaining(s'.procs[a.i].pc, |s.procs|) < Remaining(s.procs[a.i].pc, |s.procs|)
  {
    assert Shown(true);
    var pc := s.procs[a.i].pc;
    assert One(s, a.i);
    if (pc.Reparent? || pc.ReWake?) && pc.k < |s.procs| {
      OneSlotLess(|s.procs|, pc.k);
    }
  }

  lemma WaitHolderStep(s: State, a: Action, s': State)
    requires Inv(s) && Step(s, a, s') && a.i < |s.procs| == |s'.procs| && s.wl == a.i && s'.wl == a.i && !ExitAct(a)
    requires !a.DoKill?
    ensures Remaining(s'.procs[a.i].pc, |s.procs|) < Remaining(s.procs[a.i].pc, |s.procs|)
  {
    assert Shown(true);
    assert One(s, a.i);
  }

  /** How many steps of its own, from u to t, process i takes. */
  function OwnSteps(acts: seq<Action>, u: nat, t: nat, i: nat): nat
    requires u <= t <= |acts|
    decreases t
  {
    if t == u then 0
    else OwnSteps(acts, u, t - 1, i) + if acts[t - 1].i == i && !acts[t - 1].DoKill? then 1 else 0
  }

  /** Whoever holds wait_lock gives it back after so many steps of its own. */
  lemma {:induction false} WaitLockIsGivenBack(states: seq<State>, acts: seq<Action>, u: nat, t: nat, i: nat)
    requires IsRun(states, acts) && u <= t < |states| && i < |states[u].procs|
    requires forall v {:trigger states[v]} :: u <= v <= t ==> states[v].wl == i
    ensures |states[t].procs| == |states[u].procs|
    ensures OwnSteps(acts, u, t, i) + Remaining(states[t].procs[i].pc, |states[u].procs|)
            <= Remaining(states[u].procs[i].pc, |states[u].procs|)
    decreases t
  {
    if u < t {
      var s, a := states[t - 1], acts[t - 1];
      WaitLockIsGivenBack(states, acts, u, t - 1, i);
      StepOfRun(states, acts, t - 1);
      SameTable(s, a, states[t]);
      WhatChanges(s, a, states[t], i);
      if a.i == i && !a.DoKill? {
        HolderStep(s, a, states[t]);
      } else if a.i == i {
        KillMoves(s, a, states[t]);
      } else {
        ParentsStay(s, a, states[t], i, i);
      }
    }
  }

  lemma KillMoves(s: State, a: Action, s': State)
    requires Step(s, a, s') && a.DoKill? && a.i < |s.procs| == |s'.procs|
    ensures s'.procs[a.i].pc == s.procs[a.i].pc
  {
    assert Shown(true);
  }

  // ---------- who is killed ----------

  ghost predicate Unused(s: State, i: nat) { i < |s.procs| && s.procs[i].mode.UNUSED? }

  lemma KillStep(s: State, a: Action, s': State, i: nat)
    requires Inv(s) && Step(s, a, s') && i < |s.procs|
    ensures i < |s'.procs|
    ensures var p, p' := s.procs[i], s'.procs[i];
            if a.DoTakeSlot? && a.c == i then
              p.mode.UNUSED? && !p'.mode.UNUSED? && p'.killed == p.killed && p'.pid == s.nextpid < s'.nextpid
            else if a.DoKill? && a.i == i then
              p'.killed && p'.pid == p.pid == a.pid && p'.mode.UNUSED? == p.mode.UNUSED?
            else || (!p.mode.UNUSED? && p'.mode.UNUSED? && !p'.killed)
                 || (p'.mode.UNUSED? == p.mode.UNUSED? && p'.killed == p.killed && p'.pid == p.pid)
  {
    WhatChanges(s, a, s', i);
    assert One(s, i) && One(s, a.i);
    if a.DoTakeSlot? && a.c == i {
      NewSlot(s, a, s');
      TakenSlot(s, a, s');
    } else if a.DoKill? {
      KilledSlot(s, a, s');
    } else if a.i == i {
      ActorIsThere(s, a, s');
      ActorStays(s, a, s');
    } else if a.DoStartChild? {
      StartedSlot(s, a, s', i);
      StartedStays(s, a, s', i);
    } else if Frees(s, a, i) {
      FreedByOthers(s, a, s', i);
      FreedIsUnused(s, a, s', i);
    }
  }

  lemma TakenSlot(s: State, a: Action, s': State)
    requires Step(s, a, s') && a.DoTakeSlot?
    ensures a.c < |s'.procs| && s'.procs[a.c].mode.USED? && s'.nextpid == s.nextpid + 1
  {
    assert Shown(true);
  }

  lemma KilledSlot(s: State, a: Action, s': State)
    requires Step(s, a, s') && a.DoKill? && a.i < |s.procs| == |s'.procs|
    ensures s.procs[a.i].pid == a.pid && s'.procs[a.i].mode.UNUSED? == s.procs[a.i].mode.UNUSED?
  {
    assert Shown(true);
  }

  lemma StartedStays(s: State, a: Action, s': State, i: nat)
    requires Step(s, a, s') && a.DoStartChild? && i < |s.procs| == |s'.procs|
    ensures s'.procs[i].mode.UNUSED? ==> s.procs[i].mode.UNUSED?
  {
    assert Shown(true);
  }

  lemma FreedIsUnused(s: State, a: Action, s': State, i: nat)
    requires Step(s, a, s') && i < |s.procs| == |s'.procs| && a.i < |s.procs| && a.i != i && Frees(s, a, i)
    ensures s'.procs[i].mode.UNUSED? && !s'.procs[i].killed
  {
    assert Shown(true);
  }

  lemma ActorStays(s: State, a: Action, s': State)
    requires Inv(s) && Step(s, a, s') && a.i < |s.procs| == |s'.procs| && !a.DoKill?
    ensures !s'.procs[a.i].mode.UNUSED? && s'.procs[a.i].pid == s.procs[a.i].pid
  {
    assert One(s, a.i);
    if ForkAct(a) {
      ForkingActorStays(s, a, s');
    } else {
      OtherActorStays(s, a, s');
    }
  }

  lemma ForkingActorStays(s: State, a: Action, s': State)
    requires Inv(s) && Step(s, a, s') && a.i < |s.procs| == |s'.procs| && ForkAct(a)
    ensures !s'.procs[a.i].mode.UNUSED? && s'.procs[a.i].pid == s.procs[a.i].pid
  {
    assert Shown(true);
    if !a.DoTakeSlot? {
      assert Two(s, a.i, s.procs[a.i].pc.c);
    }
  }

  lemma OtherActorStays(s: State, a: Action, s': State)
    requires a.i < |s.procs| == |s'.procs| && One(s, a.i) && Step(s, a, s') && !ForkAct(a) && !a.DoKill?
    ensures !s'.procs[a.i].mode.UNUSED? && s'.procs[a.i].pid == s.procs[a.i].pid
  {
    assert Shown(true);
  }

  lemma {:induction false} PidsGrow(states: seq<State>, acts: seq<Action>, u: nat, t: nat)
    requires IsRun(states, acts) && u <= t < |states|
    ensures states[u].nextpid <= states[t].nextpid
    ensures u < t && acts[u].DoTakeSlot? ==> states[u].nextpid < states[t].nextpid
    decreases t
  {
    if u < t {
      PidsGrow(states, acts, u, t - 1);
      StepOfRun(states, acts, t - 1);
      PidStep(states[t - 1], acts[t - 1], states[t]);
    }
  }

  lemma PidStep(s: State, a: Action, s': State)
    requires Step(s, a, s')
    ensures s'.nextpid == s.nextpid + if a.DoTakeSlot? then 1 else 0
  {
    assert Shown(true);
  }

  /** kill was called with pid and found it in slot i. */
  ghost predicate KilledByPid(acts: seq<Action>, t: nat, i: nat, pid: nat) {
    exists u {:trigger acts[u]} :: 0 <= u < t && u < |acts| && acts[u] == DoKill(i, pid)
  }

  ghost predicate UnusedFrom(states: seq<State>, u: nat, t: nat, i: nat) {
    forall v {:trigger states[v]} :: u <= v <= t && v < |states| ==> Unused(states[v], i)
  }

  /** kill was called with 0, which is the pid of a free slot, and slot i has been free since. */
  ghost predicate MarkedWhileFree(states: seq<State>, acts: seq<Action>, t: nat, i: nat) {
    exists u {:trigger acts[u]} :: 0 <= u < t && u < |acts| && acts[u] == DoKill(i, 0) && UnusedFrom(states, u, t, i)
  }

  /** The fork that gave process i its pid took a slot that was marked. */
  ghost predicate BornKilled(states: seq<State>, acts: seq<Action>, t: nat, i: nat, pid: nat) {
    exists b {:trigger acts[b]} :: 0 <= b < t && b < |acts| && b < |states| && acts[b].DoTakeSlot? && acts[b].c == i &&
                                   states[b].nextpid == pid && MarkedWhileFree(states, acts, b, i)
  }

  ghost predicate KilledOk(states: seq<State>, acts: seq<Action>, t: nat, i: nat)
    requires t < |states| && i < |states[t].procs|
  {
    var p := states[t].procs[i];
    p.killed <==> if p.mode.UNUSED? then MarkedWhileFree(states, acts, t, i)
                  else KilledByPid(acts, t, i, p.pid) || BornKilled(states, acts, t, i, p.pid)
  }

  lemma StaysMarked(states: seq<State>, acts: seq<Action>, t: nat, i: nat)
    requires 0 < t < |states| == |acts| + 1 && Unused(states[t], i)
    ensures MarkedWhileFree(states, acts, t, i) <==>
            (MarkedWhileFree(states, acts, t - 1, i) || acts[t - 1] == DoKill(i, 0)) && Unused(states[t - 1], i)
  {
    if MarkedWhileFree(states, acts, t - 1, i) && Unused(states[t - 1], i) {
      var u :| 0 <= u < t - 1 && u < |acts| && acts[u] == DoKill(i, 0) && UnusedFrom(states, u, t - 1, i);
      assert UnusedFrom(states, u, t, i);
    }
    if acts[t - 1] == DoKill(i, 0) && Unused(states[t - 1], i) {
      assert UnusedFrom(states, t - 1, t, i);
    }
    if MarkedWhileFree(states, acts, t, i) {
      var u :| 0 <= u < t && u < |acts| && acts[u] == DoKill(i, 0) && UnusedFrom(states, u, t, i);
      assert UnusedFrom(states, u, t - 1, i);
      assert Unused(states[t - 1], i);
    }
  }

  /** No kill and no fork knew the pid before it was drawn. */
  lemma NewPidIsUnknown(states: seq<State>, acts: seq<Action>, b: nat, i: nat)
    requires IsRun(states, acts) && b < |acts|
    ensures !KilledByPid(acts, b, i, states[b].nextpid) && !BornKilled(states, acts, b, i, states[b].nextpid)
  {
    forall u: nat | u < b
      ensures acts[u] != DoKill(i, states[b].nextpid)
      ensures acts[u].DoTakeSlot? ==> states[u].nextpid != states[b].nextpid
    {
      PidsGrow(states, acts, u, b);
      StepOfRun(states, acts, u);
      if acts[u].DoKill? {
        KilledPid(states[u], acts[u], states[u + 1]);
      }
    }
  }

  lemma KilledPid(s: State, a: Action, s': State)
    requires Inv(s) && Step(s, a, s') && a.DoKill?
    ensures a.pid < s.nextpid
  {
    assert Shown(true);
    assert One(s, a.i);
  }

  lemma BornThen(states: seq<State>, acts: seq<Action>, t: nat, i: nat, pid: nat)
    requires 0 < t < |states| == |acts| + 1
    ensures BornKilled(states, acts, t, i, pid) <==>
            || BornKilled(states, acts, t - 1, i, pid)
            || (acts[t - 1].DoTakeSlot? && acts[t - 1].c == i && states[t - 1].nextpid == pid &&
                MarkedWhileFree(states, acts, t - 1, i))
  {
  }

  /** A process is killed if and only if kill was called with its pid, or its slot was already
      marked when fork took it. */
  lemma {:induction false} KillsFollow(states: seq<State>, acts: seq<Action>, t: nat, i: nat)
    requires IsRun(states, acts) && t < |states| && i < |states[t].procs|
    ensures KilledOk(states, acts, t, i)
  {
    if t == 0 {
      assert !states[0].procs[i].killed;
    } else {
      var s, a := states[t - 1], acts[t - 1];
      StepOfRun(states, acts, t - 1);
      SameTable(s, a, states[t]);
      KillsFollow(states, acts, t - 1, i);
      KillStep(s, a, states[t], i);
      assert One(s, i);
      var pid := states[t].procs[i].pid;
      if states[t].procs[i].mode.UNUSED? {
        StaysMarked(states, acts, t, i);
      } else {
        BornThen(states, acts, t, i, pid);
        if a.DoTakeSlot? && a.c == i {
          NewPidIsUnknown(states, acts, t - 1, i);
        }
      }
    }
  }

  /** kwait returns -1 as killed only if kill was called with the caller's pid, or its slot was
      marked. */
  lemma WaitKilledIsTrue(states: seq<State>, acts: seq<Action>, t: nat, i: nat)
    requires IsRun(states, acts) && t < |acts| && acts[t] == DoWaitKilled(i)
    ensures i < |states[t].procs|
    ensures var pid := states[t].procs[i].pid; KilledByPid(acts, t, i, pid) || BornKilled(states, acts, t, i, pid)
  {
    StepOfRun(states, acts, t);
    assert Shown(true);
    assert One(states[t], i);
    KillsFollow(states, acts, t, i);
  }

  /** It goes to sleep only if neither is so. */
  lemma KilledDoesNotSleep(states: seq<State>, acts: seq<Action>, t: nat, i: nat)
    requires IsRun(states, acts) && t < |acts| && acts[t] == DoScanEnd(i)
    ensures i < |states[t].procs|
    ensures var pid := states[t].procs[i].pid; !KilledByPid(acts, t, i, pid) && !BornKilled(states, acts, t, i, pid)
  {
    StepOfRun(states, acts, t);
    assert Shown(true);
    assert One(states[t], i);
    KillsFollow(states, acts, t, i);
  }

  // ---------- killed and asleep ----------

  /** From the end of kwait's scan until it is woken. */
  predicate Dozes(p: Proc) {
    p.pc.WaitSleep? || p.pc.WaitSleepB? || Dozing(p)
  }

  /** The action is a kill of process i between the end of its scan and sleep's acquire(&p->lock). */
  ghost predicate KilledLate(s: State, a: Action, i: nat) {
    a.DoKill? && a.i == i && i < |s.procs| && s.procs[i].pc.WaitSleep?
  }

  lemma DozeStep(s: State, a: Action, s': State, i: nat)
    requires Inv(s) && Step(s, a, s') && i < |s.procs| == |s'.procs| && Dozes(s'.procs[i])
    ensures || (a == DoScanEnd(i) && !s'.procs[i].killed)
            || (Dozes(s.procs[i]) && (s'.procs[i].killed <==> s.procs[i].killed || KilledLate(s, a, i)))
  {
    assert One(s, i);
    WhatChanges(s, a, s', i);
    if a.i == i {
      OwnDoze(s, a, s');
    } else if Frees(s, a, i) {
      FreedByOthers(s, a, s', i);
    } else {
      StaysAsleep(s, a, s', i);
    }
  }

  lemma OwnDoze(s: State, a: Action, s': State)
    requires a.i < |s.procs| == |s'.procs| && One(s, a.i) && Step(s, a, s') && Dozes(s'.procs[a.i])
    ensures || (a.DoScanEnd? && !s'.procs[a.i].killed)
            || (Dozes(s.procs[a.i]) && (s'.procs[a.i].killed <==> s.procs[a.i].killed || KilledLate(s, a, a.i)))
  {
    if WaitAct(a) {
      FallsAsleep(s, a, s');
    } else {
      DozesOn(s, a, s');
    }
  }

  lemma FallsAsleep(s: State, a: Action, s': State)
    requires a.i < |s.procs| == |s'.procs| && One(s, a.i) && Step(s, a, s') && Dozes(s'.procs[a.i]) && WaitAct(a)
    ensures || (a.DoScanEnd? && !s'.procs[a.i].killed)
            || (Dozes(s.procs[a.i]) && s'.procs[a.i].killed == s.procs[a.i].killed)
  {
    assert Shown(true);
  }

  lemma DozesOn(s: State, a: Action, s': State)
    requires a.i < |s.procs| == |s'.procs| && One(s, a.i) && Step(s, a, s') && Dozes(s'.procs[a.i]) && !WaitAct(a)
    ensures Dozes(s.procs[a.i]) && (s'.procs[a.i].killed <==> s.procs[a.i].killed || KilledLate(s, a, a.i))
  {
    assert Shown(true);
  }

  lemma StaysAsleep(s: State, a: Action, s': State, i: nat)
    requires Step(s, a, s') && i < |s.procs| == |s'.procs| && a.i != i
    ensures s'.procs[i].mode.SLEEPING? ==> s.procs[i].mode.SLEEPING?
  {
    assert Shown(true);
  }

  ghost predicate KilledLateSince(states: seq<State>, acts: seq<Action>, u: nat, t: nat, i: nat) {
    exists v {:trigger acts[v]} :: u < v < t && v < |acts| && v < |states| && KilledLate(states[v], acts[v], i)
  }

  /** A process asleep in kwait is killed if and only if kill came between the end of its scan and
      sleep's acquire(&p->lock). */
  lemma {:induction false} SleepsThoughKilled(states: seq<State>, acts: seq<Action>, t: nat, i: nat) returns (u: nat)
    requires IsRun(states, acts) && t < |states| && i < |states[t].procs| && Dozes(states[t].procs[i])
    ensures u < t && acts[u] == DoScanEnd(i)
    ensures states[t].procs[i].killed <==> KilledLateSince(states, acts, u, t, i)
  {
    if t == 0 {
      NobodyDozes(states[0], i);
    } else {
      var b := t - 1;
      StepOfRun(states, acts, b);
      SameTable(states[b], acts[b], states[t]);
      DozeStep(states[b], acts[b], states[t], i);
      if acts[b] == DoScanEnd(i) && !states[t].procs[i].killed {
        u := b;
      } else {
        u := SleepsThoughKilled(states, acts, b, i);
      }
    }
  }

  lemma NobodyDozes(s: State, i: nat)
    requires Boot(s) && i < |s.procs|
    ensures !Dozes(s.procs[i])
  {
  }
}
