/** What a run of the storage machine amounts to, told from its actions alone: which buffers
    and operations each process has, what the log has recorded, and what was last left for
    each block. The theorems about runs are stated here in these terms. */
module StorageHistory {
  import opened Blocks
  import opened Params
  import opened RedoLog
  import opened Seals
  import opened Storage
  import opened StorageProof

  // ---------- from the actions alone ----------

  /** The block of the last bget by which p got buffer i, until it gives the buffer back. */
  ghost function Wanted(acts: seq<Action>, k: nat, p: Proc, i: nat): Option<u32>
    requires k <= |acts|
  {
    if k == 0 then None else NextWanted(acts[k - 1], p, i, Wanted(acts, k - 1, p, i))
  }

  ghost function NextWanted(a: Action, p: Proc, i: nat, w: Option<u32>): Option<u32> {
    if a.Crash? || a == Put(p, i) then None
    else if a.Get? && a.p == p && a.i == i then Some(a.b)
    else w
  }

  /** Who has locked buffer i. */
  ghost function Locker(acts: seq<Action>, k: nat, i: nat): Option<Proc>
    requires k <= |acts|
  {
    if k == 0 then None else NextLocker(acts[k - 1], i, Locker(acts, k - 1, i))
  }

  ghost function NextLocker(a: Action, i: nat, w: Option<Proc>): Option<Proc> {
    if a.Crash? || (a.Unlock? && a.i == i) then None
    else if a.Lock? && a.i == i then Some(a.p)
    else w
  }

  /** p is between begin_op and end_op. */
  ghost predicate InOperation(acts: seq<Action>, k: nat, p: Proc)
    requires k <= |acts|
  {
    k > 0 && NextInOperation(acts[k - 1], p, InOperation(acts, k - 1, p))
  }

  ghost predicate NextInOperation(a: Action, p: Proc, w: bool) {
    if a.Crash? || a == EndOp(p) then false else a == BeginOp(p) || w
  }

  /** No process is. */
  ghost predicate Quiet(acts: seq<Action>, k: nat)
    requires k <= |acts|
  {
    forall p {:trigger InOperation(acts, k, p)} :: !InOperation(acts, k, p)
  }

  /** Block b went through log_write, and its transaction is not yet erased from the log. */
  ghost predicate Recorded(acts: seq<Action>, k: nat, b: nat)
    requires k <= |acts|
  {
    k > 0 &&
    var a := acts[k - 1];
    if a.Crash? || a.ClearHead? then false
    else (a.LogWrite? && Wanted(acts, k - 1, a.p, a.i) == Some(b)) || Recorded(acts, k - 1, b)
  }

  /** What was last left for block b: the value of the last edit of a buffer got for b, or, if
      there was none since the last mount or crash, what recovery left on the disk. */
  ghost function Latest(d: Disk, start: nat, states: seq<State>, acts: seq<Action>, k: nat, b: nat): Block
    requires k <= |acts| < |states|
  {
    if k == 0 then BlockOf(Repaired(d, start, []), b) else
      var a := acts[k - 1];
      if a.Crash? then BlockOf(Repaired(states[k - 1].disk, start, a.crashes), b)
      else if a.Edit? && Wanted(acts, k - 1, a.p, a.i) == Some(b) then a.v
      else Latest(d, start, states, acts, k - 1, b)
  }

  /** The disk after interrupted recoveries and one that ends. */
  ghost function Repaired(d: Disk, start: nat, crashes: seq<nat>): Disk {
    if GoodDisk(d, start) then Recovered(AfterCrashes(d, start, crashes), start) else d
  }

  ghost function BlockOf(d: Disk, b: nat): Block {
    if b < |d| then d[b] else ZeroBlock()
  }

  // ---------- buffers ----------

  /** The users of buffer i are those that want its block. */
  ghost predicate UserOk(s: State, p: Proc, i: nat, w: Option<u32>) {
    if i < |s.slots| && p in s.slots[i].users
    then w.Some? && s.slots[i].used && s.slots[i].blockno == w.value
    else w == None
  }

  /** Who uses buffer i, for which block, and who has locked it, after a step. */
  lemma SlotStep(s: State, start: nat, a: Action, s': State, i: nat)
    requires Step(s, start, a, s') && i < |s.slots| && !a.Crash?
    ensures |s'.slots| == |s.slots| && SlotChange(a, i, s.slots[i], s'.slots[i])
  {
    if a.Get? || a.Put? || a.Lock? || a.Unlock? {
      CacheStep(s, start, a, s', i);
    } else {
      OtherStep(s, start, a, s', i);
    }
  }

  /** What the action a may do to use and lock of buffer i. */
  ghost predicate SlotChange<T>(a: Action, i: nat, t: Slot<T>, t': Slot<T>) {
    && (!((a.Get? || a.Put?) && a.i == i) ==> SameUse(t, t'))
    && (a.Get? && a.i == i ==>
          && t'.used && t'.blockno == a.b && a.p !in t.users
          && (if t.used && t.blockno == a.b then t'.users == t.users + {a.p}
              else t'.users == {a.p} && t.refcnt == 0))
    && (a.Put? && a.i == i ==> a.p in t.users && SameUse(t.(users := t.users - {a.p}), t'))
    && t'.owner == NextLocker(a, i, t.owner)
  }

  lemma CacheStep(s: State, start: nat, a: Action, s': State, i: nat)
    requires Step(s, start, a, s') && i < |s.slots| && (a.Get? || a.Put? || a.Lock? || a.Unlock?)
    ensures |s'.slots| == |s.slots| && SlotChange(a, i, s.slots[i], s'.slots[i])
  {
    assert Shown(true);
  }

  lemma OtherStep(s: State, start: nat, a: Action, s': State, i: nat)
    requires Step(s, start, a, s') && i < |s.slots|
    requires !a.Get? && !a.Put? && !a.Lock? && !a.Unlock? && !a.Crash?
    ensures |s'.slots| == |s.slots| && SameUse(s.slots[i], s'.slots[i]) && s'.slots[i].owner == s.slots[i].owner
  {
    assert Shown(true);
  }

  ghost predicate SameUse<T>(t: Slot<T>, t': Slot<T>) {
    t'.used == t.used && t'.blockno == t.blockno && t'.users == t.users
  }

  lemma UserStep(s: State, start: nat, a: Action, s': State, p: Proc, i: nat, w: Option<u32>)
    requires Inv(s, start) && Step(s, start, a, s') && UserOk(s, p, i, w)
    ensures UserOk(s', p, i, NextWanted(a, p, i, w))
  {
    if a.Crash? {
      AllEmpty(s, start, a, s');
    } else if i < |s.slots| {
      SlotStep(s, start, a, s', i);
      UnusedSlotIsFree(s, start, i);
    } else {
      SameSize(s, start, a, s');
    }
  }

  lemma AllEmpty(s: State, start: nat, a: Action, s': State)
    requires a.Crash? && Step(s, start, a, s')
    ensures |s'.slots| == NBUF
    ensures forall i: nat :: i < NBUF ==> s'.slots[i].users == {} && s'.slots[i].owner == None
  {
    assert Shown(true);
  }

  lemma SameSize(s: State, start: nat, a: Action, s': State)
    requires !a.Crash? && Step(s, start, a, s')
    ensures |s'.slots| == |s.slots|
    ensures (a.Get? || a.Put?) ==> a.i < |s.slots|
  {
    assert Shown(true);
  }

  lemma UnusedSlotIsFree(s: State, start: nat, i: nat)
    requires Inv(s, start) && i < |s.slots|
    ensures s.slots[i].refcnt == 0 ==> s.slots[i].users == {}
    ensures |s.slots| == NBUF
  {
    assert Open(true);
    SlotFacts(CacheOf(s), start, i);
  }

  lemma {:induction false} UsersFollow(d: Disk, start: nat, states: seq<State>, acts: seq<Action>, k: nat, p: Proc,
                                       i: nat)
    requires IsRun(d, start, states, acts) && k < |states|
    ensures UserOk(states[k], p, i, Wanted(acts, k, p, i))
  {
    if k == 0 {
      assert Shown(true);
    } else {
      UsersFollow(d, start, states, acts, k - 1, p, i);
      RunKeeps(d, start, states, acts, k - 1);
      assert Step(states[k - 1], start, acts[k - 1], states[k]);
      UserStep(states[k - 1], start, acts[k - 1], states[k], p, i, Wanted(acts, k - 1, p, i));
    }
  }

  lemma {:induction false} LocksFollow(d: Disk, start: nat, states: seq<State>, acts: seq<Action>, k: nat, i: nat)
    requires IsRun(d, start, states, acts) && k < |states| && i < NBUF
    ensures i < |states[k].slots| && states[k].slots[i].owner == Locker(acts, k, i)
  {
    if k == 0 {
      assert Shown(true);
    } else {
      LocksFollow(d, start, states, acts, k - 1, i);
      var s, a := states[k - 1], acts[k - 1];
      assert Step(s, start, a, states[k]);
      if a.Crash? {
        AllEmpty(s, start, a, states[k]);
      } else {
        SlotStep(s, start, a, states[k], i);
      }
    }
  }

  /** A buffer that is held is one that its holder got for the block and locked. */
  lemma HeldIsWanted(d: Disk, start: nat, states: seq<State>, acts: seq<Action>, k: nat, p: Proc, i: nat)
    requires IsRun(d, start, states, acts) && k < |states| && Owns(states[k], p, i)
    ensures Wanted(acts, k, p, i) == Some(states[k].slots[i].blockno)
  {
    RunKeeps(d, start, states, acts, k);
    UsersFollow(d, start, states, acts, k, p, i);
    assert Open(true);
    SlotFacts(CacheOf(states[k]), start, i);
  }

  // ---------- operations and the log ----------

  lemma OpsStep(s: State, start: nat, a: Action, s': State, p: Proc)
    requires Step(s, start, a, s')
    ensures p in s'.ops <==> NextInOperation(a, p, p in s.ops)
  {
    assert Shown(true);
  }

  lemma {:induction false} OpsFollow(d: Disk, start: nat, states: seq<State>, acts: seq<Action>, k: nat, p: Proc)
    requires IsRun(d, start, states, acts) && k < |states|
    ensures p in states[k].ops <==> InOperation(acts, k, p)
  {
    if k == 0 {
      assert Shown(true);
    } else {
      OpsFollow(d, start, states, acts, k - 1, p);
      assert Step(states[k - 1], start, acts[k - 1], states[k]);
      OpsStep(states[k - 1], start, acts[k - 1], states[k], p);
    }
  }

  lemma QuietIsIdle(d: Disk, start: nat, states: seq<State>, acts: seq<Action>, k: nat)
    requires IsRun(d, start, states, acts) && k < |states|
    ensures Quiet(acts, k) <==> IsQuiet(states[k])
  {
    RunKeeps(d, start, states, acts, k);
    Basics(states[k], start);
    forall p
      ensures p in states[k].ops <==> InOperation(acts, k, p)
    {
      OpsFollow(d, start, states, acts, k, p);
    }
    if Quiet(acts, k) {
      assert forall p :: p !in states[k].ops;
      assert states[k].ops == map[];
    }
  }

  /** Buffer i was changed after the last log_write of it. */
  ghost predicate Unlogged(acts: seq<Action>, k: nat, i: nat)
    requires k <= |acts|
  {
    k > 0 && NextUnlogged(acts[k - 1], i, Unlogged(acts, k - 1, i))
  }

  ghost predicate NextUnlogged(a: Action, i: nat, w: bool) {
    if a.Crash? || (a.LogWrite? && a.i == i) then false else (a.Edit? && a.i == i) || w
  }

  lemma DirtyStep(s: State, start: nat, a: Action, s': State, i: nat)
    requires Step(s, start, a, s')
    ensures i in s'.dirty <==> NextUnlogged(a, i, i in s.dirty)
  {
    assert Shown(true);
  }

  /** The buffers that may not be released yet are those changed and not yet recorded. */
  lemma {:induction false} DirtyFollows(d: Disk, start: nat, states: seq<State>, acts: seq<Action>, k: nat, i: nat)
    requires IsRun(d, start, states, acts) && k < |states|
    ensures i in states[k].dirty <==> Unlogged(acts, k, i)
  {
    if k == 0 {
      assert Shown(true);
    } else {
      DirtyFollows(d, start, states, acts, k - 1, i);
      assert Step(states[k - 1], start, acts[k - 1], states[k]);
      DirtyStep(states[k - 1], start, acts[k - 1], states[k], i);
    }
  }

  /** Where the actions so far leave the commit: begun by the last end_op, one block further with
      each copy. */
  ghost function Commit(acts: seq<Action>, k: nat): Phase
    requires k <= |acts|
  {
    if k == 0 then Idle else NextCommit(acts[k - 1], Quiet(acts, k), Commit(acts, k - 1))
  }

  function NextCommit(a: Action, quiet: bool, w: Phase): Phase {
    match a
    case EndOp(p) => if quiet then Logging(p, 0) else w
    case CopyToLog(_, _) => if w.Logging? then Logging(w.c, w.tail + 1) else w
    case WriteHead(_) => if w.Logging? then Installing(w.c, 0) else w
    case Install(_, _) => if w.Installing? then Installing(w.c, w.tail + 1) else w
    case ClearHead(_) => if w.Installing? then Finishing(w.c) else w
    case Finish => Idle
    case Crash(_) => Idle
    case _ => w
  }

  lemma CommitStep(s: State, start: nat, a: Action, s': State)
    requires Step(s, start, a, s')
    ensures s'.phase == NextCommit(a, s'.outstanding == 0, s.phase)
  {
    assert Shown(true);
  }

  /** The commit is where the actions say. */
  lemma {:induction false} CommitFollows(d: Disk, start: nat, states: seq<State>, acts: seq<Action>, k: nat)
    requires IsRun(d, start, states, acts) && k < |states|
    ensures states[k].phase == Commit(acts, k)
  {
    if k == 0 {
      assert Shown(true);
    } else {
      CommitFollows(d, start, states, acts, k - 1);
      assert Step(states[k - 1], start, acts[k - 1], states[k]);
      CommitStep(states[k - 1], start, acts[k - 1], states[k]);
      QuietIsIdle(d, start, states, acts, k);
      RunKeeps(d, start, states, acts, k);
      Basics(states[k], start);
    }
  }

  lemma RecordStep(s: State, start: nat, a: Action, s': State, b: nat)
    requires Step(s, start, a, s')
    ensures b in s'.lh <==> !a.Crash? && !a.ClearHead?
                            && (b in s.lh || (a.LogWrite? && a.i < |s.slots| && s.slots[a.i].blockno == b))
    ensures a.Edit? || a.LogWrite? ==> Owns(s, a.p, a.i)
  {
    assert Shown(true);
  }

  /** The log records exactly the blocks that went through log_write since it was last erased. */
  lemma {:induction false} RecordsFollow(d: Disk, start: nat, states: seq<State>, acts: seq<Action>, k: nat, b: nat)
    requires IsRun(d, start, states, acts) && k < |states|
    ensures b in states[k].lh <==> Recorded(acts, k, b)
  {
    if k == 0 {
      assert Shown(true);
    } else {
      RecordsFollow(d, start, states, acts, k - 1, b);
      var s, a := states[k - 1], acts[k - 1];
      assert Step(s, start, a, states[k]);
      RecordStep(s, start, a, states[k], b);
      if a.LogWrite? {
        HeldIsWanted(d, start, states, acts, k - 1, a.p, a.i);
      }
    }
  }

  // ---------- contents ----------

  /** Home blocks change by edits and crashes only. */
  lemma ContentsStep(s: State, start: nat, a: Action, s': State, b: nat)
    requires Inv(s, start) && Step(s, start, a, s') && !InLog(start, b)
    ensures a.Crash? ==> s'.contents == Repaired(s.disk, start, a.crashes)
    ensures a.Edit? ==> && |s'.contents| == |s.contents| && Owns(s, a.p, a.i)
                        && BlockOf(s'.contents, b) == if s.slots[a.i].blockno == b then a.v else BlockOf(s.contents, b)
    ensures !a.Crash? && !a.Edit? ==> |s'.contents| == |s.contents| && BlockOf(s'.contents, b) == BlockOf(s.contents, b)
  {
    if a.Install? {
      InstallShows(s, start, a, s');
    } else {
      Basics(s, start);
      assert Shown(true);
    }
  }

  /** The logical disk, at every home block, is what was last left there. */
  lemma {:induction false} ContentsFollow(d: Disk, start: nat, states: seq<State>, acts: seq<Action>, k: nat, b: nat)
    requires IsRun(d, start, states, acts) && k < |states| && !InLog(start, b)
    ensures BlockOf(states[k].contents, b) == Latest(d, start, states, acts, k, b)
  {
    if k == 0 {
      MountedIsFine(d, start, states[0]);
    } else {
      ContentsFollow(d, start, states, acts, k - 1, b);
      RunKeeps(d, start, states, acts, k - 1);
      var s, a := states[k - 1], acts[k - 1];
      assert Step(s, start, a, states[k]);
      ContentsStep(s, start, a, states[k], b);
      if a.Edit? {
        HeldIsWanted(d, start, states, acts, k - 1, a.p, a.i);
      }
    }
  }

  // ---------- the theorems ----------

  /** Cache transparency: what bread returns to its caller for a home block is what was last
      left for it, the caller got the buffer for that block and locked it, and no other
      buffer shows the block. */
  lemma BreadShowsLatest(d: Disk, start: nat, states: seq<State>, acts: seq<Action>, k: nat, p: Proc, i: nat, b: nat)
    requires IsRun(d, start, states, acts) && k < |states| && Holds(states[k], p, i, b)
    ensures !InLog(start, b) ==> states[k].slots[i].data == Latest(d, start, states, acts, k, b)
    ensures Wanted(acts, k, p, i) == Some(b) && Locker(acts, k, i) == Some(p)
    ensures forall l: nat :: l != i ==> !Shows(states[k].slots, l, b)
  {
    RunKeeps(d, start, states, acts, k);
    HeldIsWanted(d, start, states, acts, k, p, i);
    assert |states[k].slots| == NBUF && Shows(states[k].slots, i, b) by {
      assert Open(true);
      SlotFacts(CacheOf(states[k]), start, i);
    }
    LocksFollow(d, start, states, acts, k, i);
    if !InLog(start, b) {
      ContentsFollow(d, start, states, acts, k, b);
    }
    assert Open(true);
    ShownContents(CacheOf(states[k]), start, i, b);
  }

  /** Moment j is after the end of every transaction that ended before a header write up to
      moment k. */
  ghost predicate Durable(acts: seq<Action>, j: nat, k: nat)
    requires k <= |acts|
  {
    forall e: nat, h: nat {:trigger acts[e], acts[h]} ::
      e < h < k && acts[e].EndOp? && Quiet(acts, e + 1) && acts[h].WriteHead? ==> e < j
  }

  /** Crash safety of whole runs: wherever a run is cut, and however often recovery is then
      interrupted, it ends with every home block as it was last left at a moment j of the run
      when no operation was in progress, and which is not before the end of any transaction
      whose header was written. */
  lemma EveryRunIsCrashSafe(d: Disk, start: nat, states: seq<State>, acts: seq<Action>, k: nat, crashes: seq<nat>)
    returns (j: nat)
    requires IsRun(d, start, states, acts) && k < |states|
    ensures GoodDisk(states[k].disk, start) && |states[k].disk| == |d|
    ensures j <= k && Quiet(acts, j) && Durable(acts, j, k)
    ensures forall b: nat {:trigger Latest(d, start, states, acts, j, b)} :: b < |d| && !InLog(start, b) ==>
              Recovered(AfterCrashes(states[k].disk, start, crashes), start)[b] == Latest(d, start, states, acts, j, b)
  {
    j := ContentsAreCrashSafe(d, start, states, acts, k, crashes);
    SizeStays(d, start, states, acts, k);
    SizeStays(d, start, states, acts, j);
    QuietIsIdle(d, start, states, acts, j);
    var r := Recovered(AfterCrashes(states[k].disk, start, crashes), start);
    forall b: nat | b < |d| && !InLog(start, b)
      ensures r[b] == Latest(d, start, states, acts, j, b)
    {
      ContentsFollow(d, start, states, acts, j, b);
      assert r[b] == states[j].contents[b];
    }
    forall e: nat, h: nat | e < h < k && acts[e].EndOp? && Quiet(acts, e + 1) && acts[h].WriteHead?
      ensures e < j
    {
      QuietIsIdle(d, start, states, acts, e + 1);
      assert EndsTransaction(states, acts, e);
    }
  }

  lemma {:induction false} SizeStays(d: Disk, start: nat, states: seq<State>, acts: seq<Action>, k: nat)
    requires IsRun(d, start, states, acts) && k < |states|
    ensures |states[k].disk| == |states[k].contents| == |d|
  {
    if k == 0 {
      assert Shown(true);
    } else {
      SizeStays(d, start, states, acts, k - 1);
      RunKeeps(d, start, states, acts, k - 1);
      RunKeeps(d, start, states, acts, k);
      assert Step(states[k - 1], start, acts[k - 1], states[k]);
      ContentsStep(states[k - 1], start, acts[k - 1], states[k], start + LOGBLOCKS + 1);
      assert Open(true);
    }
  }
}
