/** A run of the storage machine that fills the log, so that log_write of a block that is
    already recorded meets the size panic. */
module FullLog {
  import opened Params
  import opened RedoLog
  import opened Storage
  import opened StorageProof

  /** How many of the first m blocks process p has recorded, MAXOPBLOCKS by each in turn. */
  function Share(m: nat, p: nat): nat {
    if m <= p * MAXOPBLOCKS then 0 else if m >= (p + 1) * MAXOPBLOCKS then MAXOPBLOCKS else m - p * MAXOPBLOCKS
  }

  /** Buffer i shows block base + i, pinned by log_write and otherwise unused. */
  ghost predicate Loaded<T>(slots: seq<Slot<T>>, base: nat, i: nat) {
    i < |slots| && slots[i].used && slots[i].valid && slots[i].blockno == base + i && slots[i].users == {} &&
    slots[i].owner == None
  }

  /** Three operations are in progress, and together have recorded m blocks from base on. */
  ghost predicate Recorded(s: State, base: nat, m: nat) {
    && |s.slots| == NBUF && base + LOGBLOCKS <= |s.disk| == |s.contents|
    && s.outstanding == 3 && s.dirty == {}
    && (forall p :: 0 <= p < 3 ==> p in s.ops && s.ops[p] == Share(m, p))
    && |s.lh| == m && (forall i :: 0 <= i < m ==> s.lh[i] == base + i)
    && (forall i :: 0 <= i < m ==> Loaded(s.slots, base, i))
    && (forall i :: m <= i < NBUF ==>
          !s.slots[i].used && s.slots[i].refcnt == 0 && s.slots[i].users == {} && s.slots[i].owner == None)
  }

  /** The state at the end of a run. */
  function Last(states: seq<State>): State
    requires states != []
  {
    states[|states| - 1]
  }

  lemma Extend(d: Disk, start: nat, states: seq<State>, acts: seq<Action>, a: Action)
    returns (states': seq<State>, acts': seq<Action>)
    requires IsRun(d, start, states, acts) && Enabled(Last(states), start, a)
    ensures IsRun(d, start, states', acts') && Last(states') == Do(Last(states), start, a)
  {
    states', acts' := states + [Do(Last(states), start, a)], acts + [a];
    forall k {:trigger acts'[k]} | 0 <= k < |acts'|
      ensures Step(states'[k], start, acts'[k], states'[k + 1])
    {
      assert k < |acts| ==> Step(states[k], start, acts[k], states[k + 1]);
    }
  }

  /** bread of block base + m into buffer m, by the process whose turn it is. */
  lemma ReadOne(d: Disk, start: nat, states: seq<State>, acts: seq<Action>, base: nat, m: nat)
    returns (states': seq<State>, acts': seq<Action>)
    requires IsRun(d, start, states, acts) && Recorded(Last(states), base, m)
    requires m < LOGBLOCKS && base + LOGBLOCKS < 0x1_0000_0000
    ensures IsRun(d, start, states', acts')
    ensures var s, p: Proc, b := Last(states), m / MAXOPBLOCKS, base + m;
            Last(states') == WithSlot(s, m, Slot(true, true, b, 1, s.disk[b], {p}, Some(p)))
  {
    var s, p: Proc, b := Last(states), m / MAXOPBLOCKS, base + m;
    forall k | 0 <= k < |s.slots|
      ensures !(s.slots[k].used && s.slots[k].blockno == b)
    {
      assert k < m ==> Loaded(s.slots, base, k);
    }
    states', acts' := Extend(d, start, states, acts, Get(p, b, m));
    states', acts' := Extend(d, start, states', acts', Lock(p, m));
    states', acts' := Extend(d, start, states', acts', Fill(p, m));
  }

  /** Then log_write. */
  lemma LogOne(d: Disk, start: nat, states: seq<State>, acts: seq<Action>, base: nat, m: nat)
    returns (states': seq<State>, acts': seq<Action>)
    requires IsRun(d, start, states, acts) && Recorded(Last(states), base, m)
    requires m < LOGBLOCKS && start + LOGBLOCKS < base && base + LOGBLOCKS < 0x1_0000_0000
    ensures IsRun(d, start, states', acts')
    ensures var s, p: Proc, b := Last(states), m / MAXOPBLOCKS, base + m;
            && p in s.ops
            && Last(states') == s.(slots := s.slots[m := Slot(true, true, b, 2, s.disk[b], {p}, Some(p))],
                                   lh := s.lh + [b], ops := s.ops[p := s.ops[p] + 1])
  {
    var s, p: Proc, b := Last(states), m / MAXOPBLOCKS, base + m;
    states', acts' := ReadOne(d, start, states, acts, base, m);
    var t := Last(states');
    assert p in s.ops && s.ops[p] == Share(m, p) == m - p * MAXOPBLOCKS;
    assert b !in s.lh;
    states', acts' := Extend(d, start, states', acts', LogWrite(p, m));
    assert t.dirty - {m} == {};
    assert t.slots[m := t.slots[m].(refcnt := 2)] == s.slots[m := Slot(true, true, b, 2, s.disk[b], {p}, Some(p))];
  }

  /** Then brelse. */
  lemma RecordOne(d: Disk, start: nat, states: seq<State>, acts: seq<Action>, base: nat, m: nat)
    returns (states': seq<State>, acts': seq<Action>)
    requires IsRun(d, start, states, acts) && Recorded(Last(states), base, m)
    requires m < LOGBLOCKS && start + LOGBLOCKS < base && base + LOGBLOCKS < 0x1_0000_0000
    ensures IsRun(d, start, states', acts') && Recorded(Last(states'), base, m + 1)
  {
    var s, p: Proc, b := Last(states), m / MAXOPBLOCKS, base + m;
    states', acts' := LogOne(d, start, states, acts, base, m);
    var t := Last(states');
    states', acts' := Extend(d, start, states', acts', Unlock(p, m));
    states', acts' := Extend(d, start, states', acts', Put(p, m));
    var slots' := s.slots[m := Slot(true, true, b, 1, s.disk[b], {}, None)];
    assert {p} - {p} == {};
    assert Last(states').slots == slots';
    StillLoaded(s.slots, slots', base, m);
    assert Last(states') == t.(slots := slots');
    SharesGrow(m);
  }

  lemma StillLoaded<T>(slots: seq<Slot<T>>, slots': seq<Slot<T>>, base: nat, m: nat)
    requires m < |slots| == |slots'| && slots' == slots[m := slots'[m]] && Loaded(slots', base, m)
    requires forall i :: 0 <= i < m ==> Loaded(slots, base, i)
    ensures forall i :: 0 <= i < m + 1 ==> Loaded(slots', base, i)
  {
    forall i | 0 <= i < m
      ensures Loaded(slots', base, i)
    {
      assert Loaded(slots, base, i);
    }
  }

  lemma SharesGrow(m: nat)
    requires m < LOGBLOCKS
    ensures forall p: nat :: p < 3 ==> Share(m + 1, p) == Share(m, p) + if p == m / MAXOPBLOCKS then 1 else 0
  {
  }

  /** Mounting, and three operations that are let in. */
  lemma ThreeIn(d: Disk, start: nat, base: nat) returns (states: seq<State>, acts: seq<Action>)
    requires GoodDisk(d, start) && base + LOGBLOCKS <= |d|
    ensures IsRun(d, start, states, acts) && Recorded(Last(states), base, 0)
  {
    states, acts := [Mounted(d, start)], [];
    assert Begins(d, start, states[0]);
    states, acts := Extend(d, start, states, acts, BeginOp(0));
    states, acts := Extend(d, start, states, acts, BeginOp(1));
    states, acts := Extend(d, start, states, acts, BeginOp(2));
  }

  lemma {:induction false} RecordMany(d: Disk, start: nat, base: nat, m: nat)
    returns (states: seq<State>, acts: seq<Action>)
    requires GoodDisk(d, start) && start + LOGBLOCKS < base && base + LOGBLOCKS <= |d| < 0x1_0000_0000 && m <= LOGBLOCKS
    ensures IsRun(d, start, states, acts) && Recorded(Last(states), base, m)
  {
    if m == 0 {
      states, acts := ThreeIn(d, start, base);
    } else {
      states, acts := RecordMany(d, start, base, m - 1);
      states, acts := RecordOne(d, start, states, acts, base, m - 1);
    }
  }

  /** On every disk with LOGBLOCKS blocks beyond the log there is a run in which an operation in
      progress holds the buffer of a recorded block, and log_write of it panics. */
  lemma AbsorbingCanPanic(d: Disk, start: nat, base: nat) returns (states: seq<State>, acts: seq<Action>)
    requires GoodDisk(d, start) && start + LOGBLOCKS < base && base + LOGBLOCKS <= |d| < 0x1_0000_0000
    ensures IsRun(d, start, states, acts)
    ensures var s := Last(states);
            0 in s.ops && Holds(s, 0, 0, base) && base in s.lh && LogWritePanics(s)
  {
    states, acts := RecordMany(d, start, base, LOGBLOCKS);
    var s := Last(states);
    assert Loaded(s.slots, base, 0) && s.lh[0] == base;
    states, acts := Extend(d, start, states, acts, Get(0, base, 0));
    states, acts := Extend(d, start, states, acts, Lock(0, 0));
  }
}
