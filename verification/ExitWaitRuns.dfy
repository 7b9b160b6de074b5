/** Runs in which killing a process does not come out as one might expect. */
module ExitWaitRuns {
  import opened ExitWait
  import opened ExitWaitFlow
  import opened ExitWaitLaws
  import opened ExitWaitProof
  import opened ProcModes

  lemma Extend(states: seq<State>, acts: seq<Action>, a: Action, s': State)
    requires IsRun(states, acts) && Next(states[|acts|], a, s')
    ensures IsRun(states + [s'], acts + [a])
  {
    var states', acts' := states + [s'], acts + [a];
    forall t, u | 0 <= t < |acts'| && u == t + 1
      ensures Step(states'[t], acts'[t], states'[u])
    {
      if t < |acts| {
        assert Step(states[t], acts[t], states[u]);
      }
    }
  }

  /** init runs, and kill(0) has marked the free slot. */
  lemma MarksFree() returns (states: seq<State>, acts: seq<Action>)
    ensures IsRun(states, acts) && acts == [DoDispatch(0), DoKill(1, 0)]
    ensures states[2] == State([Proc(RUNNING, Nothing, NoParent, 1, 0, false, Elsewhere, false, true),
                                Proc(UNUSED, Nothing, NoParent, 0, 0, true, Elsewhere, false, false)],
                               2, 0, 2, map[], map[])
  {
    var p := Proc(RUNNABLE, Nothing, NoParent, 1, 0, false, Elsewhere, false, false);
    var q := Proc(UNUSED, Nothing, NoParent, 0, 0, false, Elsewhere, false, false);
    var run := p.(mode := RUNNING, onCpu := true);
    var s0 := State([p, q], 2, 0, 2, map[], map[]);
    var s1 := s0.(procs := [run, q]);
    var s2 := s0.(procs := [run, q.(killed := true)]);
    states, acts := [s0], [];
    Extend(states, acts, DoDispatch(0), s1);
    states, acts := states + [s1], acts + [DoDispatch(0)];
    Extend(states, acts, DoKill(1, 0), s2);
    states, acts := states + [s2], acts + [DoKill(1, 0)];
  }

  /** A child that is killed at birth, though nobody has called kill with its pid. */
  lemma KilledAtBirth() returns (states: seq<State>, acts: seq<Action>)
    ensures IsRun(states, acts)
    ensures acts == [DoDispatch(0), DoKill(1, 0), DoTakeSlot(0, 1), DoSetParent(0), DoStartChild(0)]
    ensures ChildOf(states[5], 1, 0) && states[5].procs[1].mode.RUNNABLE? && states[5].procs[1].killed
    ensures !KilledByPid(acts, 5, 1, states[5].procs[1].pid)
  {
    states, acts := MarksFree();
    var s2 := states[2];
    var run, child := s2.procs[0], s2.procs[1].(mode := USED, pid := 2);
    var s3 := s2.(procs := [run.(pc := ForkUsed(1)), child], nextpid := 3);
    var s4 := s3.(procs := [run.(pc := ForkParent(1)), child.(parent := Parent(0))]);
    var s5 := s3.(procs := [run, child.(parent := Parent(0), mode := RUNNABLE)]);
    Extend(states, acts, DoTakeSlot(0, 1), s3);
    states, acts := states + [s3], acts + [DoTakeSlot(0, 1)];
    Extend(states, acts, DoSetParent(0), s4);
    states, acts := states + [s4], acts + [DoSetParent(0)];
    Extend(states, acts, DoStartChild(0), s5);
    states, acts := states + [s5], acts + [DoStartChild(0)];
  }

  /** init forks. */
  lemma Forks() returns (states: seq<State>, acts: seq<Action>)
    ensures IsRun(states, acts) && acts == [DoDispatch(0), DoTakeSlot(0, 1), DoSetParent(0)]
    ensures states[3] == State([Proc(RUNNING, Nothing, NoParent, 1, 0, false, ForkParent(1), false, true),
                                Proc(USED, Nothing, Parent(0), 2, 0, false, Elsewhere, false, false)],
                               2, 0, 3, map[], map[])
  {
    var p := Proc(RUNNABLE, Nothing, NoParent, 1, 0, false, Elsewhere, false, false);
    var q := Proc(UNUSED, Nothing, NoParent, 0, 0, false, Elsewhere, false, false);
    var run, child := p.(mode := RUNNING, onCpu := true), q.(mode := USED, pid := 2);
    var s0 := State([p, q], 2, 0, 2, map[], map[]);
    var s1 := s0.(procs := [run, q]);
    var s2 := s0.(procs := [run.(pc := ForkUsed(1)), child], nextpid := 3);
    var s3 := s2.(procs := [run.(pc := ForkParent(1)), child.(parent := Parent(0))]);
    states, acts := [s0], [];
    Extend(states, acts, DoDispatch(0), s1);
    states, acts := states + [s1], acts + [DoDispatch(0)];
    Extend(states, acts, DoTakeSlot(0, 1), s2);
    states, acts := states + [s2], acts + [DoTakeSlot(0, 1)];
    Extend(states, acts, DoSetParent(0), s3);
    states, acts := states + [s3], acts + [DoSetParent(0)];
  }

  /** init has a child, and waits for it; the scan has passed its own slot. */
  lemma ForksAndWaits() returns (states: seq<State>, acts: seq<Action>)
    ensures IsRun(states, acts) && |acts| == 6
    ensures states[6] == State([Proc(RUNNING, Nothing, NoParent, 1, 0, false, WaitScan(1, false), false, true),
                                Proc(RUNNABLE, Nothing, Parent(0), 2, 0, false, Elsewhere, false, false)],
                               0, 0, 3, map[], map[])
  {
    states, acts := Forks();
    var s3 := states[3];
    var run, child := s3.procs[0], s3.procs[1].(mode := RUNNABLE);
    var s4 := s3.(procs := [run.(pc := Elsewhere), child]);
    var s5 := s3.(procs := [run.(pc := WaitScan(0, false)), child], wl := 0);
    var s6 := s5.(procs := [run.(pc := WaitScan(1, false)), child]);
    Extend(states, acts, DoStartChild(0), s4);
    states, acts := states + [s4], acts + [DoStartChild(0)];
    Extend(states, acts, DoBeginWait(0), s5);
    states, acts := states + [s5], acts + [DoBeginWait(0)];
    Extend(states, acts, DoScanSlot(0), s6);
    states, acts := states + [s6], acts + [DoScanSlot(0)];
  }

  /** The scan has found no ZOMBIE, and then kill has come. */
  lemma KilledAfterScan() returns (states: seq<State>, acts: seq<Action>)
    ensures IsRun(states, acts) && |acts| == 9 && acts[8] == DoKill(0, 1)
    ensures states[9] == State([Proc(RUNNING, Nothing, NoParent, 1, 0, true, WaitSleep, false, true),
                                Proc(RUNNABLE, Nothing, Parent(0), 2, 0, false, Elsewhere, false, false)],
                               0, 0, 3, map[], map[])
  {
    states, acts := ForksAndWaits();
    var s6 := states[6];
    var p, q := s6.procs[0], s6.procs[1];
    var s7 := s6.(procs := [p.(pc := WaitScan(2, true)), q]);
    var s8 := s6.(procs := [p.(pc := WaitSleep), q]);
    var s9 := s6.(procs := [p.(pc := WaitSleep, killed := true), q]);
    Extend(states, acts, DoScanSlot(0), s7);
    states, acts := states + [s7], acts + [DoScanSlot(0)];
    Extend(states, acts, DoScanEnd(0), s8);
    states, acts := states + [s8], acts + [DoScanEnd(0)];
    Extend(states, acts, DoKill(0, 1), s9);
    states, acts := states + [s9], acts + [DoKill(0, 1)];
  }

  /** A process that falls asleep in kwait after it has been killed. */
  lemma AsleepThoughKilled() returns (states: seq<State>, acts: seq<Action>)
    ensures IsRun(states, acts) && |acts| == 12 && acts[8] == DoKill(0, 1)
    ensures |states[12].procs| == 2
    ensures var p := states[12].procs[0]; p.mode.SLEEPING? && p.pc.WaitAsleep? && p.killed && p.pid == 1
  {
    states, acts := KilledAfterScan();
    var s9 := states[9];
    var p, q := s9.procs[0], s9.procs[1];
    var s10 := s9.(procs := [p.(pc := WaitSleepB, locked := true), q]);
    var s11 := s9.(procs := [p.(pc := WaitSleepC, locked := true), q], wl := 2);
    var s12 := s11.(procs := [p.(pc := WaitAsleep, locked := true, mode := SLEEPING, chan := WaitChan(0)), q]);
    Extend(states, acts, DoSleepLock(0), s10);
    states, acts := states + [s10], acts + [DoSleepLock(0)];
    Extend(states, acts, DoSleepUnlock(0), s11);
    states, acts := states + [s11], acts + [DoSleepUnlock(0)];
    Extend(states, acts, DoFallAsleep(0), s12);
    states, acts := states + [s12], acts + [DoFallAsleep(0)];
  }
}
