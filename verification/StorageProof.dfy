/** Every step of the storage machine keeps its invariant. */
module StorageProof {
  import opened Blocks
  import opened Params
  import opened RedoLog
  import opened Seals
  import opened Storage

  // ---------- steps on the cache alone ----------

  /** Reference counts, users and owners do not bear on what is shown. */
  lemma SameShown<T>(disk: seq<T>, slots: seq<Slot<T>>, slots': seq<Slot<T>>, contents: seq<T>, pins: seq<u32>,
                     dirty: set<nat>)
    requires DiskOk(disk, slots, contents, pins, dirty) && |slots'| == |slots|
    requires forall i :: 0 <= i < |slots| && slots[i].used && slots[i].valid ==>
               slots'[i].used && slots'[i].valid && slots'[i].blockno == slots[i].blockno
    ensures DiskOk(disk, slots', contents, pins, dirty)
  {
    forall n: nat | n < |disk| && disk[n] != contents[n] && n !in pins
      ensures IsDirty(slots', dirty, n)
    {
      var i :| i in dirty && Shows(slots, i, n);
      assert Shows(slots', i, n);
    }
    forall n | n in pins
      ensures exists i :: Shows(slots', i, n)
    {
      var i :| Shows(slots, i, n);
      assert Shows(slots', i, n);
    }
  }

  ghost predicate SlotOk<T>(t: Slot<T>, contents: seq<T>, pins: seq<u32>) {
    && (t.used ==> t.blockno < |contents|)
    && (t.valid ==> t.used && t.data == contents[t.blockno])
    && t.refcnt == |t.users| + (if t.used && t.blockno in pins then 1 else 0)
    && (!t.used ==> t.users == {})
    && (t.owner.Some? ==> t.owner.value in t.users)
  }

  lemma ReplaceSlot<T>(slots: seq<Slot<T>>, i: nat, t: Slot<T>, contents: seq<T>, pins: seq<u32>)
    requires SlotsOk(slots, contents, pins) && i < NBUF && SlotOk(t, contents, pins)
    requires t.used ==> forall k :: 0 <= k < NBUF && k != i && slots[k].used ==> slots[k].blockno != t.blockno
    ensures SlotsOk(slots[i := t], contents, pins)
  {
  }

  lemma Sizes<T>(c: Cached<T>, start: nat)
    requires Coherent(c, start)
    ensures |c.slots| == NBUF && |c.disk| == |c.contents|
  {
    assert Inside(true);
  }

  lemma SlotFacts<T>(c: Cached<T>, start: nat, i: nat)
    requires Coherent(c, start) && i < |c.slots|
    ensures |c.slots| == NBUF && |c.disk| == |c.contents| && SlotOk(c.slots[i], c.contents, c.pins)
    ensures i in c.dirty ==> c.slots[i].owner.Some? && c.slots[i].owner.value in c.ops
  {
    assert Inside(true);
  }

  /** A step that changes one slot, still showing the same block, and nothing else. */
  lemma Touched<T>(c: Cached<T>, start: nat, i: nat, t: Slot<T>)
    requires Coherent(c, start) && i < |c.slots| && SlotOk(t, c.contents, c.pins)
    requires t.used == c.slots[i].used && t.blockno == c.slots[i].blockno && (c.slots[i].valid ==> t.valid)
    requires i in c.dirty ==> t.owner == c.slots[i].owner
    ensures Coherent(c.(slots := c.slots[i := t]), start)
  {
    assert Inside(true);
    ReplaceSlot(c.slots, i, t, c.contents, c.pins);
    SameShown(c.disk, c.slots, c.slots[i := t], c.contents, c.pins, c.dirty);
  }

  lemma GetHitKeeps(s: State, start: nat, p: Proc, b: u32, i: nat)
    requires StateOk(s, start) && CanGet(s, p, b, i) && s.slots[i].used && s.slots[i].blockno == b
    ensures StateOk(DoGet(s, p, b, i), start)
  {
    var t := s.slots[i];
    SlotFacts(CacheOf(s), start, i);
    Touched(CacheOf(s), start, i, t.(refcnt := t.refcnt + 1, users := t.users + {p}));
  }

  lemma LockKeeps(s: State, start: nat, p: Proc, i: nat)
    requires StateOk(s, start) && Enabled(s, start, Lock(p, i))
    ensures StateOk(Do(s, start, Lock(p, i)), start)
  {
    SlotFacts(CacheOf(s), start, i);
    Touched(CacheOf(s), start, i, s.slots[i].(owner := Some(p)));
  }

  lemma FillKeeps(s: State, start: nat, p: Proc, i: nat)
    requires StateOk(s, start) && Enabled(s, start, Fill(p, i))
    ensures StateOk(Do(s, start, Fill(p, i)), start)
  {
    SlotFacts(CacheOf(s), start, i);
    NotShown(CacheOf(s), start, i);
    Touched(CacheOf(s), start, i, s.slots[i].(valid := true, data := s.disk[s.slots[i].blockno]));
  }

  /** No buffer shows the block, so the disk holds what was last left for it. */
  lemma NotShown<T>(c: Cached<T>, start: nat, i: nat)
    requires Coherent(c, start) && i < |c.slots| && c.slots[i].used && !c.slots[i].valid
    ensures var n := c.slots[i].blockno;
            n < |c.disk| == |c.contents| && c.disk[n] == c.contents[n]
  {
    assert Inside(true);
    var n := c.slots[i].blockno;
    assert !exists k :: Shows(c.slots, k, n);
    assert !IsDirty(c.slots, c.dirty, n);
    assert n < |c.disk|;
    assert c.disk[n] == c.contents[n];
  }

  lemma UnlockKeeps(s: State, start: nat, p: Proc, i: nat)
    requires StateOk(s, start) && Enabled(s, start, Unlock(p, i))
    ensures StateOk(Do(s, start, Unlock(p, i)), start)
  {
    SlotFacts(CacheOf(s), start, i);
    Touched(CacheOf(s), start, i, s.slots[i].(owner := None));
  }

  lemma PutKeeps(s: State, start: nat, p: Proc, i: nat)
    requires StateOk(s, start) && Enabled(s, start, Put(p, i))
    ensures StateOk(Do(s, start, Put(p, i)), start)
  {
    var t := s.slots[i];
    SlotFacts(CacheOf(s), start, i);
    assert |t.users - {p}| == |t.users| - 1;
    Touched(CacheOf(s), start, i, t.(refcnt := t.refcnt - 1, users := t.users - {p}));
  }

  /** bget may give an unused buffer to another block: it is neither pinned nor dirty. */
  lemma RecycleKeeps(s: State, start: nat, p: Proc, b: u32, i: nat)
    requires StateOk(s, start) && CanGet(s, p, b, i) && !(s.slots[i].used && s.slots[i].blockno == b)
    ensures StateOk(DoGet(s, p, b, i), start)
  {
    Recycled(CacheOf(s), start, p, b, i);
  }

  lemma Recycled<T>(c: Cached<T>, start: nat, p: Proc, b: u32, i: nat)
    requires Coherent(c, start) && i < |c.slots| && c.slots[i].refcnt == 0 && b < |c.disk|
    requires forall k :: 0 <= k < |c.slots| ==> !(c.slots[k].used && c.slots[k].blockno == b)
    ensures var t := c.slots[i].(used := true, valid := false, blockno := b, refcnt := 1, users := {p});
            Coherent(c.(slots := c.slots[i := t]), start)
  {
    assert Inside(true);
    var t := c.slots[i].(used := true, valid := false, blockno := b, refcnt := 1, users := {p});
    UnusedSlot(c.slots, i, c.contents, c.pins);
    UnpinnedBlock(c.disk, c.slots, b, c.contents, c.pins, c.dirty);
    ReplaceSlot(c.slots, i, t, c.contents, c.pins);
    assert i !in c.dirty;
    RecycledDiskOk(c.disk, c.slots, i, t, c.contents, c.pins, c.dirty);
  }

  lemma UnusedSlot<T>(slots: seq<Slot<T>>, i: nat, contents: seq<T>, pins: seq<u32>)
    requires SlotsOk(slots, contents, pins) && i < NBUF && slots[i].refcnt == 0
    ensures slots[i].users == {} && slots[i].owner == None
    ensures slots[i].used ==> slots[i].blockno !in pins
  {
  }

  lemma UnpinnedBlock<T>(disk: seq<T>, slots: seq<Slot<T>>, b: u32, contents: seq<T>, pins: seq<u32>, dirty: set<nat>)
    requires DiskOk(disk, slots, contents, pins, dirty)
    requires forall k :: 0 <= k < |slots| ==> !(slots[k].used && slots[k].blockno == b)
    ensures b !in pins
  {
  }

  lemma RecycledDiskOk<T>(disk: seq<T>, slots: seq<Slot<T>>, i: nat, t: Slot<T>, contents: seq<T>, pins: seq<u32>,
                          dirty: set<nat>)
    requires DiskOk(disk, slots, contents, pins, dirty) && i < |slots| && i !in dirty
    requires slots[i].used ==> slots[i].blockno !in pins
    ensures DiskOk(disk, slots[i := t], contents, pins, dirty)
  {
    var slots' := slots[i := t];
    forall n: nat | n < |disk| && disk[n] != contents[n] && n !in pins
      ensures IsDirty(slots', dirty, n)
    {
      var k :| k in dirty && Shows(slots, k, n);
      assert Shows(slots', k, n);
    }
    forall n | n in pins
      ensures exists k :: Shows(slots', k, n)
    {
      var k :| Shows(slots, k, n);
      assert Shows(slots', k, n);
    }
  }

  // ---------- steps of file system operations ----------

  lemma EditKeeps(s: State, start: nat, p: Proc, i: nat, v: Block)
    requires StateOk(s, start) && CanEdit(s, start, p, i)
    ensures StateOk(DoEdit(s, i, v), start)
  {
    Edited(CacheOf(s), start, i, v);
  }

  lemma Edited<T>(c: Cached<T>, start: nat, i: nat, v: T)
    requires Coherent(c, start) && i < |c.slots| && c.slots[i].used && c.slots[i].valid
    requires c.slots[i].owner.Some? && c.slots[i].owner.value in c.ops
    requires !InLog(start, c.slots[i].blockno) && c.slots[i].blockno < |c.contents|
    ensures Coherent(c.(slots := c.slots[i := c.slots[i].(data := v)], contents := c.contents[c.slots[i].blockno := v],
                        dirty := c.dirty + {i}), start)
  {
    assert Inside(true);
    StoreSlotsOk(c.slots, i, v, c.contents, c.pins);
    EditDiskOk(c.disk, c.slots, i, v, c.contents, c.pins, c.dirty);
  }

  lemma StoreSlotsOk<T>(slots: seq<Slot<T>>, i: nat, v: T, contents: seq<T>, pins: seq<u32>)
    requires SlotsOk(slots, contents, pins) && i < NBUF && slots[i].used && slots[i].valid
    ensures SlotsOk(slots[i := slots[i].(data := v)], contents[slots[i].blockno := v], pins)
  {
  }

  lemma EditDiskOk<T>(disk: seq<T>, slots: seq<Slot<T>>, i: nat, v: T, contents: seq<T>, pins: seq<u32>,
                      dirty: set<nat>)
    requires DiskOk(disk, slots, contents, pins, dirty)
    requires i < |slots| && slots[i].used && slots[i].valid && slots[i].blockno < |contents|
    ensures DiskOk(disk, slots[i := slots[i].(data := v)], contents[slots[i].blockno := v], pins, dirty + {i})
  {
    var slots' := slots[i := slots[i].(data := v)];
    var contents' := contents[slots[i].blockno := v];
    SameShown(disk, slots, slots', contents, pins, dirty);
    forall n: nat | n < |disk| && disk[n] != contents'[n] && n !in pins
      ensures IsDirty(slots', dirty + {i}, n)
    {
      if n == slots[i].blockno {
        assert Shows(slots', i, n);
      } else {
        var k :| k in dirty && Shows(slots', k, n);
        assert k in dirty + {i};
      }
    }
  }

  lemma LogWriteAbsorbedKeeps(s: State, start: nat, p: Proc, i: nat)
    requires StateOk(s, start) && CanLogWrite(s, start, p, i) && s.slots[i].blockno in s.lh
    ensures StateOk(DoLogWrite(s, p, i), start)
  {
    assert s.phase.Idle?;
    Absorbed(CacheOf(s), start, i);
  }

  lemma Absorbed<T>(c: Cached<T>, start: nat, i: nat)
    requires Coherent(c, start) && i < |c.slots| && c.slots[i].blockno in c.pins
    ensures Coherent(c.(dirty := c.dirty - {i}), start)
  {
    assert Inside(true);
    LoggedDiskOk(c.disk, c.slots, i, c.contents, c.pins, c.dirty);
  }

  lemma LoggedDiskOk<T>(disk: seq<T>, slots: seq<Slot<T>>, i: nat, contents: seq<T>, pins: seq<u32>, dirty: set<nat>)
    requires DiskOk(disk, slots, contents, pins, dirty) && i < |slots| && slots[i].blockno in pins
    ensures DiskOk(disk, slots, contents, pins, dirty - {i})
  {
    forall n: nat | n < |disk| && disk[n] != contents[n] && n !in pins
      ensures IsDirty(slots, dirty - {i}, n)
    {
      var k :| k in dirty && Shows(slots, k, n);
      assert k in dirty - {i};
    }
  }

  lemma LogWriteNewKeeps(s: State, start: nat, p: Proc, i: nat)
    requires StateOk(s, start) && CanLogWrite(s, start, p, i) && s.slots[i].blockno !in s.lh
    ensures StateOk(DoLogWrite(s, p, i), start)
  {
    assert s.phase.Idle?;
    Sizes(CacheOf(s), start);
    SpendOne(s.ops, p);
    OneMoreTarget(s.lh, start, |s.disk|, s.slots[i].blockno);
    LogWriteCached(s, start, p, i);
  }

  lemma LogWriteCached(s: State, start: nat, p: Proc, i: nat)
    requires StateOk(s, start) && CanLogWrite(s, start, p, i) && s.slots[i].blockno !in s.lh
    ensures Coherent(CacheOf(DoLogWrite(s, p, i)), start)
  {
    assert s.phase.Idle?;
    assert s.ops[p := s.ops[p] + 1].Keys == s.ops.Keys;
    Recorded(CacheOf(s), start, i, s.ops[p := s.ops[p] + 1]);
  }

  lemma OneMoreTarget(lh: seq<u32>, start: nat, size: nat, n: u32)
    requires GoodTargets(lh, start, size) && |lh| < LOGBLOCKS && n < size && !InLog(start, n) && n !in lh
    ensures GoodTargets(lh + [n], start, size)
  {
  }

  lemma Recorded<T>(c: Cached<T>, start: nat, i: nat, ops: map<Proc, nat>)
    requires Coherent(c, start) && i < |c.slots| && c.slots[i].used && c.slots[i].valid && c.slots[i].blockno !in c.pins
    requires ops.Keys == c.ops.Keys
    ensures var t := c.slots[i];
            Coherent(c.(slots := c.slots[i := t.(refcnt := t.refcnt + 1)], pins := c.pins + [t.blockno],
                        dirty := c.dirty - {i}, ops := ops), start)
  {
    assert Inside(true);
    PinSlotsOk(c.slots, i, c.contents, c.pins);
    PinDiskOk(c.disk, c.slots, i, c.contents, c.pins, c.dirty);
    forall p | p in c.ops
      ensures p in ops
    {
      assert p in c.ops.Keys;
    }
  }

  /** A new block takes one from what the operation may still add. */
  lemma SpendOne(ops: map<Proc, nat>, p: Proc)
    requires p in ops
    ensures Unused(ops[p := ops[p] + 1]) == Unused(ops) - 1 && ops[p := ops[p] + 1].Keys == ops.Keys
    ensures |ops[p := ops[p] + 1]| == |ops|
  {
    UnusedUpdate(ops, p, ops[p] + 1);
    UnusedWithout(ops, p);
    assert |ops.Keys| == |ops| && |ops[p := ops[p] + 1].Keys| == |ops[p := ops[p] + 1]|;
  }

  lemma PinSlotsOk<T>(slots: seq<Slot<T>>, i: nat, contents: seq<T>, lh: seq<u32>)
    requires SlotsOk(slots, contents, lh) && i < NBUF && slots[i].used && slots[i].blockno !in lh
    ensures SlotsOk(slots[i := slots[i].(refcnt := slots[i].refcnt + 1)], contents, lh + [slots[i].blockno])
  {
  }

  lemma PinDiskOk<T>(disk: seq<T>, slots: seq<Slot<T>>, i: nat, contents: seq<T>, lh: seq<u32>, dirty: set<nat>)
    requires DiskOk(disk, slots, contents, lh, dirty) && i < |slots| && slots[i].used && slots[i].valid
    ensures DiskOk(disk, slots[i := slots[i].(refcnt := slots[i].refcnt + 1)], contents, lh + [slots[i].blockno],
                   dirty - {i})
  {
    var slots' := slots[i := slots[i].(refcnt := slots[i].refcnt + 1)];
    var pins' := lh + [slots[i].blockno];
    assert Shows(slots', i, slots[i].blockno);
    SameShown(disk, slots, slots', contents, lh, dirty);
    assert DiskOk(disk, slots', contents, pins', dirty);
    LoggedDiskOk(disk, slots', i, contents, pins', dirty);
  }

  lemma BeginOpKeeps(s: State, start: nat, p: Proc)
    requires StateOk(s, start) && Enabled(s, start, BeginOp(p))
    ensures StateOk(Do(s, start, BeginOp(p)), start)
  {
    LetIn(s.ops, p);
    MoreOps(CacheOf(s), start, s.ops[p := 0]);
  }

  lemma LetIn(ops: map<Proc, nat>, p: Proc)
    requires p !in ops && forall q :: q in ops ==> ops[q] <= MAXOPBLOCKS
    ensures Unused(ops[p := 0]) == Unused(ops) + MAXOPBLOCKS && |ops[p := 0]| == |ops| + 1
    ensures Unused(ops) <= |ops| * MAXOPBLOCKS
  {
    UnusedUpdate(ops, p, 0);
    assert ops - {p} == ops;
    UnusedBounds(ops);
    assert ops[p := 0].Keys == ops.Keys + {p};
  }

  lemma MoreOps<T>(c: Cached<T>, start: nat, ops: map<Proc, nat>)
    requires Coherent(c, start) && forall p :: p in c.ops ==> p in ops
    ensures Coherent(c.(ops := ops), start)
  {
    assert Inside(true);
  }

  lemma EndOpKeeps(s: State, start: nat, p: Proc)
    requires StateOk(s, start) && CanEndOp(s, p)
    ensures StateOk(DoEndOp(s, p), start)
  {
    UnusedWithout(s.ops, p);
    assert (s.ops - {p}).Keys == s.ops.Keys - {p};
    assert !s.committing;
    LessOps(CacheOf(s), start, p);
  }

  lemma LessOps<T>(c: Cached<T>, start: nat, p: Proc)
    requires Coherent(c, start)
    requires forall i :: i in c.dirty ==> !(i < |c.slots| && c.slots[i].used && c.slots[i].owner == Some(p))
    ensures Coherent(c.(ops := c.ops - {p}), start)
  {
    assert Inside(true);
  }

  // ---------- steps of the committing process ----------

  /** While a commit is under way no operation is in progress, so no buffer is dirty. */
  lemma NothingDirty(s: State, start: nat)
    requires StateOk(s, start) && !s.phase.Idle?
    ensures s.ops == map[] && s.dirty == {}
  {
    assert |s.ops| == 0;
    NoOpsNoDirt(CacheOf(s), start);
  }

  lemma NoOpsNoDirt<T>(c: Cached<T>, start: nat)
    requires Coherent(c, start) && c.ops == map[]
    ensures c.dirty == {}
  {
    assert Inside(true);
  }

  /** Buffer i, which shows block n, is changed to v and written through. */
  lemma WrittenThrough<T>(c: Cached<T>, start: nat, i: nat, n: nat, v: T)
    requires Coherent(c, start) && c.dirty == {}
    requires i < |c.slots| && Shows(c.slots, i, n) && n < |c.disk| == |c.contents|
    ensures Coherent(c.(disk := c.disk[n := v], slots := c.slots[i := c.slots[i].(data := v)],
                        contents := c.contents[n := v]), start)
  {
    assert Inside(true);
    WriteThroughKeeps(c.disk, c.slots, i, v, c.contents, c.pins);
  }

  /** A buffer shows what was last left for its block. */
  lemma ShownContents<T>(c: Cached<T>, start: nat, i: nat, n: nat)
    requires Coherent(c, start) && Shows(c.slots, i, n)
    ensures n < |c.contents| == |c.disk| && c.slots[i].data == c.contents[n]
    ensures forall l: nat :: l != i ==> !Shows(c.slots, l, n)
  {
    assert Inside(true);
  }

  lemma WriteThroughKeeps<T>(disk: seq<T>, slots: seq<Slot<T>>, i: nat, v: T, contents: seq<T>, pins: seq<u32>)
    requires SlotsOk(slots, contents, pins) && DiskOk(disk, slots, contents, pins, {})
    requires i < NBUF && slots[i].used && slots[i].valid
    ensures var slots', n := slots[i := slots[i].(data := v)], slots[i].blockno;
            SlotsOk(slots', contents[n := v], pins) && DiskOk(disk[n := v], slots', contents[n := v], pins, {})
  {
    var slots', n := slots[i := slots[i].(data := v)], slots[i].blockno;
    StoreSlotsOk(slots, i, v, contents, pins);
    SameShown(disk, slots, slots', contents, pins, {});
    forall m: nat | m < |disk| && disk[n := v][m] != contents[n := v][m]
      ensures m in pins || IsDirty(slots', {}, m)
    {
      assert disk[m] != contents[m];
    }
  }

  lemma CopyToLogKeeps(s: State, start: nat, i: nat, j: nat)
    requires StateOk(s, start) && CanCopyToLog(s, start, i, j)
    ensures StateOk(DoCopyToLog(s, start, i, j), start)
  {
    NothingDirty(s, start);
    var b, v := start + s.phase.tail + 1, s.slots[j].data;
    ShownContents(CacheOf(s), start, j, s.lh[s.phase.tail]);
    WrittenThrough(CacheOf(s), start, i, b, v);
    CopyToLogCrashOk(s.disk, s.contents, s.lh, s.phase, s.quiet, s.at, start, v);
    var s' := DoCopyToLog(s, start, i, j);
    assert CacheOf(s') == CacheOf(s).(disk := s.disk[b := v], slots := s'.slots, contents := s.contents[b := v]);
  }

  lemma CopyToLogCrashOk(disk: Disk, contents: Disk, lh: seq<u32>, phase: Phase, quiet: seq<Disk>, at: nat, start: nat,
                         v: Block)
    requires CrashOk(disk, contents, lh, phase, quiet, at, start) && phase.Logging? && phase.tail < |lh|
    requires v == contents[lh[phase.tail]]
    ensures var b := start + phase.tail + 1;
            CrashOk(disk[b := v], contents[b := v], lh, Logging(phase.c, phase.tail + 1), quiet, at, start)
  {
    var b := start + phase.tail + 1;
    OneMoreLogged(disk, contents, start, lh, phase.tail);
    KeepsHomes(disk, b, v, quiet[at], start);
    KeepsHomes(contents, b, v, quiet[|quiet| - 1], start);
  }

  lemma OneMoreLogged<T>(disk: seq<T>, contents: seq<T>, start: nat, lh: seq<u32>, tail: nat)
    requires start + LOGBLOCKS < |disk| == |contents| && GoodTargets(lh, start, |disk|) && tail < |lh|
    requires LogHolds(disk, start, lh[..tail], contents)
    ensures var b, v := start + tail + 1, contents[lh[tail]];
            LogHolds(disk[b := v], start, lh[..tail + 1], contents[b := v])
  {
  }

  /** A write in the log region leaves the home blocks alone. */
  lemma KeepsHomes<T>(d: seq<T>, b: nat, v: T, e: seq<T>, start: nat)
    requires b < |d| && InLog(start, b) && SameHomes(d, e, start)
    ensures SameHomes(d[b := v], e, start)
  {
  }

  lemma WriteHeadKeeps(s: State, start: nat, i: nat)
    requires StateOk(s, start) && CanWriteHead(s, start, i)
    ensures StateOk(DoWriteHead(s, start, i), start)
  {
    HeaderKeeps(s, start, i, PutHead(s.slots[i].data, s.lh));
  }

  lemma HeaderKeeps(s: State, start: nat, i: nat, v: Block)
    requires StateOk(s, start) && CanWriteHead(s, start, i)
    requires Word(v, 0) == |s.lh| && Targets(v) == s.lh
    ensures StateOk(WriteThrough(s, i, start, v).(phase := Installing(s.phase.c, 0), at := |s.quiet| - 1), start)
  {
    NothingDirty(s, start);
    WrittenThrough(CacheOf(s), start, i, start, v);
    assert s.lh[0..] == s.lh;
    UnpinnedHomes(CacheOf(s), s.quiet[|s.quiet| - 1], start, v);
    WriteHeadCrashOk(s.disk, s.contents, s.lh, s.phase, s.quiet, s.at, start, v);
  }

  lemma WriteHeadCrashOk(disk: Disk, contents: Disk, lh: seq<u32>, phase: Phase, quiet: seq<Disk>, at: nat, start: nat,
                         v: Block)
    requires CrashOk(disk, contents, lh, phase, quiet, at, start) && phase.Logging? && phase.tail == |lh|
    requires Word(v, 0) == |lh| && Targets(v) == lh
    requires SameHomesBut(disk[start := v], quiet[|quiet| - 1], start, lh)
    ensures CrashOk(disk[start := v], contents[start := v], lh, Installing(phase.c, 0), quiet, |quiet| - 1, start)
  {
    assert lh[..|lh|] == lh;
    KeepsHomes(contents, start, v, quiet[|quiet| - 1], start);
    HeadingKeepsLog(disk, contents, start, lh, v);
  }

  lemma HeadingKeepsLog<T>(disk: seq<T>, contents: seq<T>, start: nat, lh: seq<u32>, v: T)
    requires start + LOGBLOCKS < |disk| == |contents| && GoodTargets(lh, start, |disk|)
    requires LogHolds(disk, start, lh, contents)
    ensures LogHolds(disk[start := v], start, lh, contents[start := v])
  {
  }

  lemma UnpinnedHomes<T>(c: Cached<T>, last: seq<T>, start: nat, v: T)
    requires start < |c.disk| && Coherent(c, start) && c.dirty == {} && SameHomes(c.contents, last, start)
    ensures SameHomesBut(c.disk[start := v], last, start, c.pins)
  {
    assert Inside(true);
    forall b: nat | b < |c.disk| && !InLog(start, b) && b !in c.pins
      ensures c.disk[start := v][b] == last[b]
    {
      assert c.contents[b] == last[b];
      assert !IsDirty(c.slots, {}, b);
      assert c.disk[b] == c.contents[b];
    }
  }

  lemma InstallKeeps(s: State, start: nat, i: nat, j: nat)
    requires StateOk(s, start) && CanInstall(s, start, i, j)
    ensures StateOk(DoInstall(s, start, i, j), start) && DoInstall(s, start, i, j).contents == s.contents
  {
    InstallCached(s, start, i, j);
    InstallCrashOk(s.disk, s.contents, s.lh, s.phase, s.quiet, s.at, start, s.slots[i].data);
  }

  lemma InstallCached(s: State, start: nat, i: nat, j: nat)
    requires StateOk(s, start) && CanInstall(s, start, i, j)
    ensures Coherent(CacheOf(DoInstall(s, start, i, j)), start) && DoInstall(s, start, i, j).contents == s.contents
  {
    NothingDirty(s, start);
    var c, n, v := CacheOf(s), s.lh[s.phase.tail], s.slots[i].data;
    CopiedHome(c, start, i, j, s.lh, s.phase.tail);
    var s' := DoInstall(s, start, i, j);
    assert s'.contents == s.contents;
    assert CacheOf(s') == c.(disk := s.disk[n := v], pins := s.lh[s.phase.tail + 1..], slots := s'.slots);
  }

  lemma CopiedHome<T>(c: Cached<T>, start: nat, i: nat, j: nat, lh: seq<u32>, tail: nat)
    requires Coherent(c, start) && c.dirty == {} && tail < |lh| && c.pins == lh[tail..]
    requires start + LOGBLOCKS < |c.disk| == |c.contents| && GoodTargets(lh, start, |c.disk|)
    requires LogHolds(c.disk, start, lh, c.contents)
    requires Shows(c.slots, i, start + tail + 1) && Shows(c.slots, j, lh[tail]) && c.slots[j].refcnt > 0
    ensures var n, v := lh[tail], c.slots[i].data;
            && c.contents[n := v] == c.contents
            && Coherent(c.(disk := c.disk[n := v], pins := lh[tail + 1..],
                           slots := c.slots[j := c.slots[j].(data := v, refcnt := c.slots[j].refcnt - 1)]), start)
  {
    assert Inside(true);
    InstallCacheOk(c.disk, c.slots, i, j, c.contents, start, lh, tail);
  }

  /** The cache part of Install: the memmove changes nothing, and after the write the disk no
      longer needs the pin. */
  lemma InstallCacheOk<T>(disk: seq<T>, slots: seq<Slot<T>>, i: nat, j: nat, contents: seq<T>, start: nat,
                          lh: seq<u32>, tail: nat)
    requires start + LOGBLOCKS < |disk| == |contents| && GoodTargets(lh, start, |disk|) && tail < |lh|
    requires SlotsOk(slots, contents, lh[tail..]) && DiskOk(disk, slots, contents, lh[tail..], {})
    requires LogHolds(disk, start, lh, contents)
    requires i < NBUF && Shows(slots, i, start + tail + 1) && j < NBUF && Shows(slots, j, lh[tail]) &&
             slots[j].refcnt > 0
    ensures var n, v := lh[tail], slots[i].data;
            var slots' := slots[j := slots[j].(data := v, refcnt := slots[j].refcnt - 1)];
            && contents[n := v] == contents
            && SlotsOk(slots', contents, lh[tail + 1..]) && DiskOk(disk[n := v], slots', contents, lh[tail + 1..], {})
  {
    var n, v, pins := lh[tail], slots[i].data, lh[tail..];
    LoggedBlock(disk, slots, contents, pins, start, lh, tail);
    assert contents[n := v] == contents;
    WriteThroughKeeps(disk, slots, j, v, contents, pins);
    assert pins[0] == n && pins[1..] == lh[tail + 1..];
    var mid := slots[j := slots[j].(data := v)];
    UnpinKeeps(disk[n := v], mid, j, contents, pins);
    assert mid[j := mid[j].(refcnt := mid[j].refcnt - 1)] ==
           slots[j := slots[j].(data := v, refcnt := slots[j].refcnt - 1)];
  }

  lemma InstallCrashOk(disk: Disk, contents: Disk, lh: seq<u32>, phase: Phase, quiet: seq<Disk>, at: nat, start: nat,
                       v: Block)
    requires CrashOk(disk, contents, lh, phase, quiet, at, start) && phase.Installing? && phase.tail < |lh|
    ensures CrashOk(disk[lh[phase.tail] := v], contents, lh, Installing(phase.c, phase.tail + 1), quiet, at, start)
  {
    InstallingKeepsLog(disk, contents, start, lh, phase.tail, v, quiet[at]);
  }

  /** What install_trans copies is what the cache already shows for the home block. */
  lemma LoggedBlock<T>(disk: seq<T>, slots: seq<Slot<T>>, contents: seq<T>, pins: seq<u32>, start: nat, lh: seq<u32>,
                       tail: nat)
    requires start + LOGBLOCKS < |disk| == |contents| && GoodTargets(lh, start, |disk|) && tail < |lh|
    requires pins == lh[tail..] && DiskOk(disk, slots, contents, pins, {}) && LogHolds(disk, start, lh, contents)
    ensures contents[start + tail + 1] == contents[lh[tail]]
  {
    var b := start + tail + 1;
    assert InLog(start, b);
    assert !IsDirty(slots, {}, b);
    assert disk[b] == contents[b];
  }

  lemma UnpinKeeps<T>(disk: seq<T>, slots: seq<Slot<T>>, j: nat, contents: seq<T>, pins: seq<u32>)
    requires SlotsOk(slots, contents, pins) && DiskOk(disk, slots, contents, pins, {})
    requires |pins| > 0 && j < NBUF && slots[j].used && slots[j].blockno == pins[0]
    requires pins[0] !in pins[1..] && pins[0] < |disk| && disk[pins[0]] == contents[pins[0]] && slots[j].refcnt > 0
    ensures var slots' := slots[j := slots[j].(refcnt := slots[j].refcnt - 1)];
            SlotsOk(slots', contents, pins[1..]) && DiskOk(disk, slots', contents, pins[1..], {})
  {
    var slots' := slots[j := slots[j].(refcnt := slots[j].refcnt - 1)];
    assert forall n :: n in pins <==> n == pins[0] || n in pins[1..];
    SameShown(disk, slots, slots', contents, pins, {});
    forall n: nat | n < |disk| && disk[n] != contents[n]
      ensures n in pins[1..] || IsDirty(slots', {}, n)
    {
      assert n in pins || IsDirty(slots, {}, n);
    }
  }

  lemma InstallingKeepsLog<T>(disk: seq<T>, contents: seq<T>, start: nat, lh: seq<u32>, tail: nat, v: T, last: seq<T>)
    requires start + LOGBLOCKS < |disk| == |contents| && GoodTargets(lh, start, |disk|) && tail < |lh|
    requires LogHolds(disk, start, lh, contents) && SameHomesBut(disk, last, start, lh)
    ensures LogHolds(disk[lh[tail] := v], start, lh, contents)
    ensures SameHomesBut(disk[lh[tail] := v], last, start, lh)
    ensures disk[lh[tail] := v][start] == disk[start]
  {
  }

  lemma ClearHeadKeeps(s: State, start: nat, i: nat)
    requires StateOk(s, start) && CanClearHead(s, start, i)
    ensures StateOk(DoClearHead(s, start, i), start)
  {
    NothingDirty(s, start);
    assert s.lh[s.phase.tail..] == [];
    var v := PutHead(s.slots[i].data, []);
    WrittenThrough(CacheOf(s), start, i, start, v);
    KeepsHomes(s.contents, start, v, s.quiet[s.at], start);
    UnpinnedHomes(CacheOf(s), s.quiet[s.at], start, v);
  }

  lemma FinishKeeps(s: State, start: nat)
    requires StateOk(s, start) && Enabled(s, start, Finish)
    ensures StateOk(Do(s, start, Finish), start)
  {
  }

  // ---------- crashes ----------

  /** At any moment, however often recovery is interrupted, it ends with the home blocks as
      they were at the quiet moment s.at. */
  lemma CrashSafe(s: State, start: nat, crashes: seq<nat>)
    requires StateOk(s, start)
    ensures GoodDisk(s.disk, start)
    ensures SameHomes(Recovered(AfterCrashes(s.disk, start, crashes), start), s.quiet[s.at], start)
  {
    if s.phase.Installing? {
      LogRecovers(s.disk, s.contents, s.lh, s.phase, s.quiet, s.at, start);
    } else {
      assert Targets(s.disk[start]) == [];
    }
    RecoverySurvivesCrashes(s.disk, start, crashes);
  }

  lemma LogRecovers(disk: Disk, contents: Disk, lh: seq<u32>, phase: Phase, quiet: seq<Disk>, at: nat, start: nat)
    requires CrashOk(disk, contents, lh, phase, quiet, at, start) && phase.Installing?
    ensures GoodDisk(disk, start)
    ensures SameHomes(Recovered(disk, start), quiet[at], start)
  {
    var r := Recovered(disk, start);
    forall b: nat | b < |disk| && !InLog(start, b)
      ensures r[b] == quiet[at][b]
    {
      if b in lh {
        var i :| 0 <= i < |lh| && lh[i] == b;
        InstalledTarget(disk, start, lh, |lh|, i);
        assert contents[b] == quiet[at][b];
      } else {
        InstalledElsewhere(disk, start, lh, |lh|, b);
      }
    }
  }

  lemma BootedIsFine(d: Disk, quiet: seq<Disk>, at: nat, start: nat)
    requires start + LOGBLOCKS < |d| && Word(d[start], 0) == 0 && at < |quiet| && SameHomes(d, quiet[at], start)
    ensures StateOk(Booted(d, quiet, at), start)
  {
  }

  lemma CrashKeeps(s: State, start: nat, crashes: seq<nat>)
    requires StateOk(s, start) && GoodDisk(s.disk, start)
    ensures StateOk(Booted(Recovered(AfterCrashes(s.disk, start, crashes), start), s.quiet, s.at), start)
  {
    CrashSafe(s, start, crashes);
    BootedIsFine(Recovered(AfterCrashes(s.disk, start, crashes), start), s.quiet, s.at, start);
  }

  // ---------- whole runs ----------

  lemma StateKept(s: State, start: nat, a: Action)
    requires StateOk(s, start) && Enabled(s, start, a)
    ensures StateOk(Do(s, start, a), start)
  {
    match a
    case Get(p, b, i) =>
      if s.slots[i].used && s.slots[i].blockno == b { GetHitKeeps(s, start, p, b, i); }
      else { RecycleKeeps(s, start, p, b, i); }
    case Lock(p, i) => LockKeeps(s, start, p, i);
    case Fill(p, i) => FillKeeps(s, start, p, i);
    case Edit(p, i, v) => EditKeeps(s, start, p, i, v);
    case LogWrite(p, i) =>
      if s.slots[i].blockno in s.lh { LogWriteAbsorbedKeeps(s, start, p, i); }
      else { LogWriteNewKeeps(s, start, p, i); }
    case Unlock(p, i) => UnlockKeeps(s, start, p, i);
    case Put(p, i) => PutKeeps(s, start, p, i);
    case BeginOp(p) => BeginOpKeeps(s, start, p);
    case EndOp(p) => EndOpKeeps(s, start, p);
    case CopyToLog(i, j) => CopyToLogKeeps(s, start, i, j);
    case WriteHead(i) => WriteHeadKeeps(s, start, i);
    case Install(i, j) => InstallKeeps(s, start, i, j);
    case ClearHead(i) => ClearHeadKeeps(s, start, i);
    case Finish => FinishKeeps(s, start);
    case Crash(crashes) => CrashKeeps(s, start, crashes);
  }

  /** The machine after mounting the disk image d. */
  ghost function Mounted(d: Disk, start: nat): State
    requires GoodDisk(d, start)
  {
    Booted(Recovered(d, start), [Recovered(d, start)], 0)
  }

  /** s' follows s by action a; sealed. */
  ghost predicate Step(s: State, start: nat, a: Action, s': State) {
    forall k: bool {:trigger Shown(k)} :: Shown(k) ==> Enabled(s, start, a) && s' == Do(s, start, a)
  }

  /** s is the machine after mounting d; sealed. */
  ghost predicate Begins(d: Disk, start: nat, s: State)
    requires GoodDisk(d, start)
  {
    forall k: bool {:trigger Shown(k)} :: Shown(k) ==> s == Mounted(d, start)
  }

  /** The states passed through from mounting d, one action after another. */
  ghost predicate IsRun(d: Disk, start: nat, states: seq<State>, acts: seq<Action>) {
    && GoodDisk(d, start)
    && |states| == |acts| + 1 && Begins(d, start, states[0])
    && forall k {:trigger acts[k]} :: 0 <= k < |acts| ==> Step(states[k], start, acts[k], states[k + 1])
  }

  lemma StepKeeps(s: State, start: nat, a: Action, s': State)
    requires Inv(s, start) && Step(s, start, a, s')
    ensures Inv(s', start)
  {
    assert Open(true) && Shown(true);
    StateKept(s, start, a);
  }

  lemma MountedIsFine(d: Disk, start: nat, s: State)
    requires GoodDisk(d, start) && Begins(d, start, s)
    ensures Inv(s, start) && IsQuiet(s) && s.quiet == [s.contents] && s.contents == Recovered(d, start)
  {
    assert Shown(true);
    var r := Recovered(d, start);
    BootedIsFine(r, [r], 0, start);
  }

  lemma {:induction false} RunKeeps(d: Disk, start: nat, states: seq<State>, acts: seq<Action>, k: nat)
    requires IsRun(d, start, states, acts) && k < |states|
    ensures Inv(states[k], start)
  {
    if k == 0 {
      MountedIsFine(d, start, states[0]);
    } else {
      RunKeeps(d, start, states, acts, k - 1);
      assert Step(states[k - 1], start, acts[k - 1], states[k]);
      StepKeeps(states[k - 1], start, acts[k - 1], states[k]);
    }
  }

  /** A step only ever adds to the quiet moments, and only the present one; the moment on the
      disk never goes back. */
  lemma StepQuiet(s: State, start: nat, a: Action, s': State)
    requires s.at < |s.quiet| && s.outstanding == |s.ops| && Step(s, start, a, s')
    ensures QuietGrows(s, s')
    ensures a.WriteHead? ==> s'.at == |s.quiet| - 1
    ensures a.EndOp? && IsQuiet(s') ==> |s'.quiet| == |s.quiet| + 1
  {
    assert Shown(true);
    if a.EndOp? {
      OpsEnd(s.ops, a.p);
    }
  }

  lemma OpsEnd(ops: map<Proc, nat>, p: Proc)
    requires p in ops
    ensures |ops - {p}| == |ops| - 1 && (|ops - {p}| == 0 <==> ops - {p} == map[])
  {
    assert (ops - {p}).Keys == ops.Keys - {p};
  }

  ghost predicate IsQuiet(s: State) {
    s.outstanding == 0 && s.ops == map[]
  }

  /** Between operations only the log area of the logical disk changes. */
  lemma QuietStep(d: Disk, start: nat, states: seq<State>, acts: seq<Action>, k: nat)
    requires IsRun(d, start, states, acts) && k < |acts|
    requires IsQuiet(states[k + 1]) && !acts[k].EndOp? && !acts[k].Crash?
    ensures IsQuiet(states[k]) && SameHomes(states[k + 1].contents, states[k].contents, start)
  {
    RunKeeps(d, start, states, acts, k);
    Basics(states[k], start);
    var s, a, s' := states[k], acts[k], states[k + 1];
    assert Step(s, start, a, s');
    if a.Install? {
      InstallShows(s, start, a, s');
    }
    HomesStay(s, start, a, s');
  }

  lemma HomesStay(s: State, start: nat, a: Action, s': State)
    requires s.outstanding == |s.ops| && |s.lh| <= LOGBLOCKS
    requires Step(s, start, a, s') && IsQuiet(s') && !a.EndOp? && !a.Crash?
    requires a.Install? ==> s'.contents == s.contents
    ensures IsQuiet(s) && SameHomes(s'.contents, s.contents, start)
  {
    assert Shown(true);
  }

  /** What install_trans copies home is what the cache shows already. */
  lemma InstallShows(s: State, start: nat, a: Action, s': State)
    requires Inv(s, start) && a.Install? && Step(s, start, a, s')
    ensures s'.contents == s.contents
  {
    assert Open(true) && Shown(true);
    InstallKeeps(s, start, a.i, a.j);
  }

  /** After a crash the logical disk is the recovered one. */
  lemma CrashStep(d: Disk, start: nat, states: seq<State>, acts: seq<Action>, k: nat)
    requires IsRun(d, start, states, acts) && k < |acts| && acts[k].Crash?
    ensures IsQuiet(states[k + 1]) && GoodDisk(states[k].disk, start)
    ensures states[k + 1].contents == Recovered(AfterCrashes(states[k].disk, start, acts[k].crashes), start)
  {
    assert Step(states[k], start, acts[k], states[k + 1]) && Shown(true);
  }

  /** The recorded quiet moments before and after a step of a run. */
  ghost predicate QuietGrows(s: State, s': State) {
    && s.quiet <= s'.quiet && s.at <= s'.at
    && (|s'.quiet| == |s.quiet| ||
        (|s'.quiet| == |s.quiet| + 1 && s'.quiet[|s.quiet|] == s'.contents && IsQuiet(s')))
  }

  /** Step k is the end of the last operation of a transaction. */
  ghost predicate EndsTransaction(states: seq<State>, acts: seq<Action>, k: nat)
    requires k < |acts| < |states|
  {
    acts[k].EndOp? && IsQuiet(states[k + 1])
  }

  lemma RunStepQuiet(d: Disk, start: nat, states: seq<State>, acts: seq<Action>, k: nat)
    requires IsRun(d, start, states, acts) && k < |acts|
    ensures QuietGrows(states[k], states[k + 1])
    ensures acts[k].WriteHead? ==> states[k + 1].at == |states[k].quiet| - 1
    ensures EndsTransaction(states, acts, k) ==> |states[k + 1].quiet| == |states[k].quiet| + 1
  {
    RunKeeps(d, start, states, acts, k);
    Basics(states[k], start);
    assert Step(states[k], start, acts[k], states[k + 1]);
    StepQuiet(states[k], start, acts[k], states[k + 1]);
  }

  lemma Basics(s: State, start: nat)
    requires Inv(s, start)
    ensures s.at < |s.quiet| && s.outstanding == |s.ops| && |s.lh| <= LOGBLOCKS
  {
    assert Open(true);
    UnusedBounds(s.ops);
  }

  /** Each recorded quiet moment is a moment of the run, the first at which it was recorded. */
  lemma {:induction false} QuietMomentsAreReal(d: Disk, start: nat, states: seq<State>, acts: seq<Action>, k: nat,
                                               q: nat)
    returns (j: nat)
    requires IsRun(d, start, states, acts) && k < |states| && q < |states[k].quiet|
    ensures j <= k && IsQuiet(states[j]) && |states[j].quiet| == q + 1 && states[j].contents == states[k].quiet[q]
  {
    if k == 0 {
      MountedIsFine(d, start, states[0]);
      j := 0;
    } else {
      RunStepQuiet(d, start, states, acts, k - 1);
      if q < |states[k - 1].quiet| {
        j := QuietMomentsAreReal(d, start, states, acts, k - 1, q);
      } else {
        j := k;
      }
    }
  }

  lemma {:induction false} QuietNeverShrinks(d: Disk, start: nat, states: seq<State>, acts: seq<Action>, j: nat, k: nat)
    requires IsRun(d, start, states, acts) && j <= k < |states|
    ensures |states[j].quiet| <= |states[k].quiet| && states[j].at <= states[k].at
    decreases k
  {
    if j < k {
      RunStepQuiet(d, start, states, acts, k - 1);
      QuietNeverShrinks(d, start, states, acts, j, k - 1);
    }
  }

  // ---------- the theorems ----------

  /** Durability: the moment that is on the disk for good is never earlier than the last quiet
      moment whose header write has been made. */
  lemma CommitsAreDurable(d: Disk, start: nat, states: seq<State>, acts: seq<Action>, j: nat, k: nat)
    requires IsRun(d, start, states, acts) && j < k < |states| && acts[j].WriteHead?
    ensures states[k].at >= |states[j].quiet| - 1
  {
    RunStepQuiet(d, start, states, acts, j);
    QuietNeverShrinks(d, start, states, acts, j + 1, k);
  }

  /** Moment j is after the end of every transaction that ended before a header write up to
      moment k. */
  ghost predicate NotBefore(states: seq<State>, acts: seq<Action>, j: nat, k: nat)
    requires k <= |acts| < |states|
  {
    forall e: nat, h: nat {:trigger acts[e], acts[h]} ::
      e < h < k && EndsTransaction(states, acts, e) && acts[h].WriteHead? ==> e < j
  }

  /** The moment on the disk is not before the end of a transaction whose header was written. */
  lemma MomentIsLate(d: Disk, start: nat, states: seq<State>, acts: seq<Action>, j: nat, k: nat, e: nat, h: nat)
    requires IsRun(d, start, states, acts) && j <= k < |states| && |states[j].quiet| == states[k].at + 1
    requires e < h < k && EndsTransaction(states, acts, e) && acts[h].WriteHead?
    ensures e < j
  {
    CommitsAreDurable(d, start, states, acts, h, k);
    RunStepQuiet(d, start, states, acts, e);
    QuietNeverShrinks(d, start, states, acts, e + 1, h);
    if j <= e {
      QuietNeverShrinks(d, start, states, acts, j, e);
      assert false;
    }
  }

  /** Crash safety of whole runs: wherever a run is cut, and however often recovery is then
      interrupted, it ends with the home blocks as they stood at a moment j of the run when no
      operation was in progress, and which is not before the end of any transaction whose header
      was written. */
  lemma ContentsAreCrashSafe(d: Disk, start: nat, states: seq<State>, acts: seq<Action>, k: nat, crashes: seq<nat>)
    returns (j: nat)
    requires IsRun(d, start, states, acts) && k < |states|
    ensures GoodDisk(states[k].disk, start)
    ensures j <= k && IsQuiet(states[j]) && NotBefore(states, acts, j, k)
    ensures SameHomes(Recovered(AfterCrashes(states[k].disk, start, crashes), start), states[j].contents, start)
  {
    RunKeeps(d, start, states, acts, k);
    Basics(states[k], start);
    SealedCrashSafe(states[k], start, crashes);
    j := QuietMomentsAreReal(d, start, states, acts, k, states[k].at);
    forall e: nat, h: nat | e < h < k && EndsTransaction(states, acts, e) && acts[h].WriteHead?
      ensures e < j
    {
      MomentIsLate(d, start, states, acts, j, k, e, h);
    }
  }

  lemma SealedCrashSafe(s: State, start: nat, crashes: seq<nat>)
    requires Inv(s, start)
    ensures GoodDisk(s.disk, start) && s.at < |s.quiet|
    ensures SameHomes(Recovered(AfterCrashes(s.disk, start, crashes), start), s.quiet[s.at], start)
  {
    assert Open(true);
    CrashSafe(s, start, crashes);
  }

  /** The reservation: operations that keep to MAXOPBLOCKS new blocks each always find room. An
      operation meets the size panic exactly on a full log, when every budget is spent. */
  lemma ReservationsHold(d: Disk, start: nat, states: seq<State>, acts: seq<Action>, k: nat, p: Proc)
    requires IsRun(d, start, states, acts) && k < |states|
    ensures var s := states[k];
            && |s.lh| + Unused(s.ops) <= LOGBLOCKS
            && GoodTargets(s.lh, start, |s.disk|)
            && s.outstanding == |s.ops|
            && (s.committing ==> s.ops == map[])
            && (p in s.ops && s.ops[p] < MAXOPBLOCKS ==> !LogWritePanics(s))
            && (p in s.ops ==> (LogWritePanics(s) <==> |s.lh| == LOGBLOCKS))
            && (|s.lh| == LOGBLOCKS ==> Unused(s.ops) == 0)
  {
    RunKeeps(d, start, states, acts, k);
    assert Open(true);
    var s := states[k];
    UnusedBounds(s.ops);
    if p in s.ops {
      UnusedWithout(s.ops, p);
      UnusedBounds(s.ops - {p});
      assert s.outstanding > 0;
    }
  }
}
