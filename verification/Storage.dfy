/** The storage stack under concurrency: processes, the buffer cache, the log and the disk
    as one state machine. A step is a section that the source runs under a lock, or a
    single-block disk transfer; the machine may crash between any two steps. */
module Storage {
  import opened Blocks
  import opened Params
  import opened RedoLog
  import opened Seals

  type Proc = nat

  datatype Option<+T> = None | Some(value: T)

  /** A buffer. users are the processes between bget and brelse's decrement. */
  datatype Slot<T> = Slot(used: bool, valid: bool, blockno: u32, refcnt: nat, data: T,
                          users: set<Proc>, owner: Option<Proc>)

  /** Where the committing process is. */
  datatype Phase = Idle
                 | Logging(c: Proc, tail: nat)     // in write_log
                 | Installing(c: Proc, tail: nat)  // in install_trans
                 | Finishing(c: Proc)              // the log is cleared

  datatype State = State(
    disk: Disk,
    slots: seq<Slot<Block>>,
    lh: seq<u32>,
    outstanding: int,
    committing: bool,
    phase: Phase,
    ops: map<Proc, nat>,      // the operations in progress, with the blocks each has added to lh
    dirty: set<nat>,          // buffers changed but not yet passed to log_write
    contents: Disk,           // what was last left for each block
    quiet: seq<Disk>,         // contents at each moment when the last operation had ended
    at: nat)                  // the moment that is on the disk for good

  // ---------- the reservation ----------

  /** The blocks that operations in progress may still add. */
  ghost function Unused(ops: map<Proc, nat>): (n: int)
    decreases |ops|
  {
    if ops == map[] then 0 else
      var p :| p in ops;
      MAXOPBLOCKS - ops[p] + Unused(ops - {p})
  }

  lemma UnusedWithout(ops: map<Proc, nat>, p: Proc)
    requires p in ops
    ensures Unused(ops) == MAXOPBLOCKS - ops[p] + Unused(ops - {p})
    decreases |ops|
  {
    var q :| q in ops && Unused(ops) == MAXOPBLOCKS - ops[q] + Unused(ops - {q});
    if q != p {
      UnusedWithout(ops - {q}, p);
      UnusedWithout(ops - {p}, q);
      assert ops - {q} - {p} == ops - {p} - {q};
    }
  }

  lemma UnusedUpdate(ops: map<Proc, nat>, p: Proc, n: nat)
    ensures Unused(ops[p := n]) == MAXOPBLOCKS - n + Unused(ops - {p})
  {
    UnusedWithout(ops[p := n], p);
    assert ops[p := n] - {p} == ops - {p};
  }

  lemma UnusedBounds(ops: map<Proc, nat>)
    requires forall p :: p in ops ==> ops[p] <= MAXOPBLOCKS
    ensures 0 <= Unused(ops) <= |ops| * MAXOPBLOCKS
    decreases |ops|
  {
    if ops != map[] {
      var p :| p in ops && Unused(ops) == MAXOPBLOCKS - ops[p] + Unused(ops - {p});
      UnusedBounds(ops - {p});
    }
  }

  // ---------- the steps ----------

  datatype Action =
    | Get(p: Proc, b: u32, i: nat)          // bget up to its release of bcache.lock
    | Lock(p: Proc, i: nat)                 // acquiresleep on the buffer
    | Fill(p: Proc, i: nat)                 // bread's disk read
    | Edit(p: Proc, i: nat, v: Block)       // a file system operation changes the buffer
    | LogWrite(p: Proc, i: nat)             // log_write
    | Unlock(p: Proc, i: nat)               // brelse's releasesleep
    | Put(p: Proc, i: nat)                  // brelse's bcache.lock section
    | BeginOp(p: Proc)                      // begin_op lets the caller in
    | EndOp(p: Proc)                        // end_op up to its release of log.lock
    | CopyToLog(i: nat, j: nat)             // one round of write_log: memmove and bwrite
    | WriteHead(i: nat)                     // the first write_head
    | Install(i: nat, j: nat)               // one round of install_trans: memmove, bwrite, bunpin
    | ClearHead(i: nat)                     // lh.n = 0 and the second write_head
    | Finish                                // end_op after commit
    | Crash(crashes: seq<nat>)              // power loss, interrupted recoveries, one that ends

  predicate Owns(s: State, p: Proc, i: nat) {
    i < |s.slots| && s.slots[i].used && s.slots[i].owner == Some(p)
  }

  /** The process holds the buffer of block b, as bread returns it. */
  predicate Holds(s: State, p: Proc, i: nat, b: nat) {
    Owns(s, p, i) && s.slots[i].valid && s.slots[i].blockno == b
  }

  /** log_write's check on the size of the transaction; its other panic needs outstanding < 1. */
  predicate LogWritePanics(s: State) {
    |s.lh| >= LOGBLOCKS || s.outstanding < 1
  }

  /** Slot i becomes t. */
  function WithSlot(s: State, i: nat, t: Slot<Block>): State
    requires i < |s.slots|
  {
    s.(slots := s.slots[i := t])
  }

  /** Buffer i, of block b, is changed and written through. */
  function WriteThrough(s: State, i: nat, b: nat, v: Block): State
    requires i < |s.slots| && b < |s.disk| == |s.contents|
  {
    s.(slots := s.slots[i := s.slots[i].(data := v)], disk := s.disk[b := v], contents := s.contents[b := v])
  }

  // Get: a buffer that has the block already, or an unused one if no buffer has it.

  ghost predicate CanGet(s: State, p: Proc, b: u32, i: nat) {
    && i < |s.slots| && p !in s.slots[i].users && b < |s.disk|
    && (|| (s.slots[i].used && s.slots[i].blockno == b)
        || (&& s.slots[i].refcnt == 0
            && forall k :: 0 <= k < |s.slots| ==> !(s.slots[k].used && s.slots[k].blockno == b)))
  }

  function DoGet(s: State, p: Proc, b: u32, i: nat): State
    requires i < |s.slots|
  {
    var t := s.slots[i];
    if t.used && t.blockno == b then
      WithSlot(s, i, t.(refcnt := t.refcnt + 1, users := t.users + {p}))
    else
      WithSlot(s, i, t.(used := true, valid := false, blockno := b, refcnt := 1, users := {p}))
  }

  // Edit: inside an operation, and not in the log.

  predicate CanEdit(s: State, start: nat, p: Proc, i: nat) {
    && p in s.ops && Owns(s, p, i) && s.slots[i].valid
    && !InLog(start, s.slots[i].blockno) && s.slots[i].blockno < |s.contents|
  }

  function DoEdit(s: State, i: nat, v: Block): State
    requires i < |s.slots| && s.slots[i].blockno < |s.contents|
  {
    s.(slots := s.slots[i := s.slots[i].(data := v)],
       contents := s.contents[s.slots[i].blockno := v],
       dirty := s.dirty + {i})
  }

  // LogWrite: the operation keeps to its budget of new blocks.

  predicate CanLogWrite(s: State, start: nat, p: Proc, i: nat) {
    && CanEdit(s, start, p, i) && !LogWritePanics(s)
    && (s.slots[i].blockno in s.lh || s.ops[p] < MAXOPBLOCKS)
  }

  function DoLogWrite(s: State, p: Proc, i: nat): State
    requires i < |s.slots| && p in s.ops
  {
    var t := s.slots[i];
    if t.blockno in s.lh then s.(dirty := s.dirty - {i})
    else s.(lh := s.lh + [t.blockno],
            slots := s.slots[i := t.(refcnt := t.refcnt + 1)],
            ops := s.ops[p := s.ops[p] + 1],
            dirty := s.dirty - {i})
  }

  // EndOp: every change of the operation has gone through log_write.

  ghost predicate CanEndOp(s: State, p: Proc) {
    p in s.ops && forall i :: i in s.dirty ==> !Owns(s, p, i)
  }

  function DoEndOp(s: State, p: Proc): State {
    var t := s.(outstanding := s.outstanding - 1, ops := s.ops - {p});
    if t.outstanding == 0 then t.(committing := true, phase := Logging(p, 0), quiet := t.quiet + [t.contents]) else t
  }

  // CopyToLog: from the buffer j of the recorded block to the buffer i of the log block.

  predicate CanCopyToLog(s: State, start: nat, i: nat, j: nat) {
    && s.phase.Logging? && s.phase.tail < |s.lh|
    && start + s.phase.tail + 1 < |s.disk| == |s.contents|
    && Holds(s, s.phase.c, i, start + s.phase.tail + 1)
    && Holds(s, s.phase.c, j, s.lh[s.phase.tail])
  }

  function DoCopyToLog(s: State, start: nat, i: nat, j: nat): State
    requires CanCopyToLog(s, start, i, j)
  {
    WriteThrough(s, i, start + s.phase.tail + 1, s.slots[j].data).(phase := Logging(s.phase.c, s.phase.tail + 1))
  }

  // WriteHead: the commit point.

  predicate CanWriteHead(s: State, start: nat, i: nat) {
    && s.phase.Logging? && 0 < |s.lh| == s.phase.tail <= LOGBLOCKS
    && start < |s.disk| == |s.contents| && Holds(s, s.phase.c, i, start) && |s.quiet| > 0
  }

  function DoWriteHead(s: State, start: nat, i: nat): State
    requires CanWriteHead(s, start, i)
  {
    WriteThrough(s, i, start, PutHead(s.slots[i].data, s.lh)).(phase := Installing(s.phase.c, 0), at := |s.quiet| - 1)
  }

  // Install: from the buffer i of the log block to the buffer j of the recorded block.

  predicate CanInstall(s: State, start: nat, i: nat, j: nat) {
    && s.phase.Installing? && s.phase.tail < |s.lh|
    && Holds(s, s.phase.c, i, start + s.phase.tail + 1)
    && Holds(s, s.phase.c, j, s.lh[s.phase.tail])
    && s.lh[s.phase.tail] < |s.disk| == |s.contents| && s.slots[j].refcnt > 0
  }

  function DoInstall(s: State, start: nat, i: nat, j: nat): State
    requires CanInstall(s, start, i, j)
  {
    var n, v := s.lh[s.phase.tail], s.slots[i].data;
    s.(slots := s.slots[j := s.slots[j].(data := v, refcnt := s.slots[j].refcnt - 1)],
       disk := s.disk[n := v], contents := s.contents[n := v],
       phase := Installing(s.phase.c, s.phase.tail + 1))
  }

  // ClearHead: the transaction is erased from the log.

  predicate CanClearHead(s: State, start: nat, i: nat) {
    && s.phase.Installing? && s.phase.tail == |s.lh|
    && start < |s.disk| == |s.contents| && Holds(s, s.phase.c, i, start)
  }

  function DoClearHead(s: State, start: nat, i: nat): State
    requires CanClearHead(s, start, i)
  {
    WriteThrough(s, i, start, PutHead(s.slots[i].data, [])).(lh := [], phase := Finishing(s.phase.c))
  }

  // Crash: memory is lost; recovery makes the disk fit for use.

  function Booted(d: Disk, quiet: seq<Disk>, at: nat): State {
    State(d, seq(NBUF, i => Slot(false, false, 0, 0, ZeroBlock(), {}, None)),
          [], 0, false, Idle, map[], {}, d, quiet, at)
  }

  ghost predicate Enabled(s: State, start: nat, a: Action) {
    match a
    case Get(p, b, i) => CanGet(s, p, b, i)
    case Lock(p, i) => i < |s.slots| && p in s.slots[i].users && s.slots[i].owner == None
    case Fill(p, i) => Owns(s, p, i) && !s.slots[i].valid && s.slots[i].blockno < |s.disk|
    case Edit(p, i, v) => CanEdit(s, start, p, i)
    case LogWrite(p, i) => CanLogWrite(s, start, p, i)
    case Unlock(p, i) => Owns(s, p, i) && i !in s.dirty   // every change has gone through log_write
    case Put(p, i) => i < |s.slots| && p in s.slots[i].users && s.slots[i].owner != Some(p) && s.slots[i].refcnt > 0
    case BeginOp(p) => p !in s.ops && !s.committing && |s.lh| + (s.outstanding + 1) * MAXOPBLOCKS <= LOGBLOCKS
    case EndOp(p) => CanEndOp(s, p)
    case CopyToLog(i, j) => CanCopyToLog(s, start, i, j)
    case WriteHead(i) => CanWriteHead(s, start, i)
    case Install(i, j) => CanInstall(s, start, i, j)
    case ClearHead(i) => CanClearHead(s, start, i)
    case Finish => s.phase.Finishing? || (s.phase.Logging? && s.lh == [])
    case Crash(crashes) => GoodDisk(s.disk, start)
  }

  ghost function Do(s: State, start: nat, a: Action): State
    requires Enabled(s, start, a)
  {
    match a
    case Get(p, b, i) => DoGet(s, p, b, i)
    case Lock(p, i) => WithSlot(s, i, s.slots[i].(owner := Some(p)))
    case Fill(p, i) => WithSlot(s, i, s.slots[i].(valid := true, data := s.disk[s.slots[i].blockno]))
    case Edit(p, i, v) => DoEdit(s, i, v)
    case LogWrite(p, i) => DoLogWrite(s, p, i)
    case Unlock(p, i) => WithSlot(s, i, s.slots[i].(owner := None))
    case Put(p, i) => WithSlot(s, i, s.slots[i].(refcnt := s.slots[i].refcnt - 1, users := s.slots[i].users - {p}))
    case BeginOp(p) => s.(outstanding := s.outstanding + 1, ops := s.ops[p := 0])
    case EndOp(p) => DoEndOp(s, p)
    case CopyToLog(i, j) => DoCopyToLog(s, start, i, j)
    case WriteHead(i) => DoWriteHead(s, start, i)
    case Install(i, j) => DoInstall(s, start, i, j)
    case ClearHead(i) => DoClearHead(s, start, i)
    case Finish => s.(committing := false, phase := Idle)
    case Crash(crashes) => Booted(Recovered(AfterCrashes(s.disk, start, crashes), start), s.quiet, s.at)
  }

  // ---------- the invariant ----------

  /** The blocks that log_write has pinned and install_trans has not yet unpinned. */
  ghost function Pins(lh: seq<u32>, phase: Phase): seq<u32> {
    if phase.Installing? && phase.tail <= |lh| then lh[phase.tail..] else lh
  }

  ghost predicate Shows<T>(slots: seq<Slot<T>>, i: nat, n: nat) {
    i < |slots| && slots[i].used && slots[i].valid && slots[i].blockno == n
  }

  ghost predicate SlotsOk<T>(slots: seq<Slot<T>>, contents: seq<T>, pins: seq<u32>) {
    && |slots| == NBUF
    && (forall i :: 0 <= i < NBUF && slots[i].used ==> slots[i].blockno < |contents|)
    && (forall i, j :: 0 <= i < j < NBUF && slots[i].used && slots[j].used ==> slots[i].blockno != slots[j].blockno)
    && (forall i :: 0 <= i < NBUF && slots[i].valid ==> slots[i].used && slots[i].data == contents[slots[i].blockno])
    && (forall i :: 0 <= i < NBUF ==>
          slots[i].refcnt == |slots[i].users| + if slots[i].used && slots[i].blockno in pins then 1 else 0)
    && (forall i :: 0 <= i < NBUF && !slots[i].used ==> slots[i].users == {})
    && (forall i :: 0 <= i < NBUF && slots[i].owner.Some? ==> slots[i].owner.value in slots[i].users)
  }

  ghost predicate IsDirty<T>(slots: seq<Slot<T>>, dirty: set<nat>, n: nat) {
    exists i :: i in dirty && Shows(slots, i, n)
  }

  /** The disk may lack the latest contents of pinned and of dirty blocks only, and pinned
      blocks are in the cache. */
  ghost predicate DiskOk<T>(disk: seq<T>, slots: seq<Slot<T>>, contents: seq<T>, pins: seq<u32>, dirty: set<nat>) {
    && |disk| == |contents|
    && (forall n: nat {:trigger disk[n]} :: n < |disk| && disk[n] != contents[n] ==>
          n in pins || IsDirty(slots, dirty, n))
    && (forall n :: n in pins ==> exists i :: Shows(slots, i, n))
  }

  ghost predicate DirtyOk<T>(slots: seq<Slot<T>>, dirty: set<nat>, ops: map<Proc, nat>, start: nat) {
    forall i :: i in dirty ==>
                  && i < |slots| && slots[i].used && slots[i].valid && !InLog(start, slots[i].blockno)
                  && slots[i].owner.Some? && slots[i].owner.value in ops
  }

  /** What bears on the cache. */
  datatype Cached<T> = Cached(disk: seq<T>, slots: seq<Slot<T>>, contents: seq<T>, pins: seq<u32>, dirty: set<nat>,
                              ops: map<Proc, nat>)

  ghost function CacheOf(s: State): Cached<Block> {
    Cached(s.disk, s.slots, s.contents, Pins(s.lh, s.phase), s.dirty, s.ops)
  }

  ghost predicate CacheOk<T>(c: Cached<T>, start: nat) {
    && SlotsOk(c.slots, c.contents, c.pins)
    && DiskOk(c.disk, c.slots, c.contents, c.pins, c.dirty)
    && DirtyOk(c.slots, c.dirty, c.ops, start)
  }

  /** The cache's part of the invariant, sealed: see Seals. */
  ghost predicate Coherent<T>(c: Cached<T>, start: nat) {
    forall k: bool {:trigger Inside(k)} :: Inside(k) ==> CacheOk(c, start)
  }

  ghost predicate LogOk(lh: seq<u32>, outstanding: int, committing: bool, phase: Phase, ops: map<Proc, nat>,
                        size: nat, start: nat)
  {
    && start + LOGBLOCKS < size
    && GoodTargets(lh, start, size)
    && outstanding == |ops|
    && (forall p :: p in ops ==> ops[p] <= MAXOPBLOCKS)
    && |lh| + Unused(ops) <= LOGBLOCKS
    && (committing <==> !phase.Idle?)
    && (committing ==> outstanding == 0)
    && (phase.Idle? && outstanding == 0 ==> lh == [])
    && (phase.Logging? || phase.Installing? ==> phase.tail <= |lh|)
    && (phase.Finishing? ==> lh == [])
  }

  /** What a crash would find: outside install_trans, an empty log and the home blocks of the
      moment that is on the disk; inside, a complete log that leads to the last quiet moment. */
  ghost predicate CrashOk(disk: Disk, contents: Disk, lh: seq<u32>, phase: Phase, quiet: seq<Disk>, at: nat,
                          start: nat) {
    && start + LOGBLOCKS < |disk| == |contents| && GoodTargets(lh, start, |disk|)
    && at < |quiet|
    && (!phase.Idle? ==> SameHomes(contents, quiet[|quiet| - 1], start))
    && (!phase.Installing? ==> Word(disk[start], 0) == 0 && SameHomes(disk, quiet[at], start))
    && (phase.Logging? && phase.tail <= |lh| ==> LogHolds(disk, start, lh[..phase.tail], contents))
    && (phase.Installing? ==>
          && at == |quiet| - 1
          && Word(disk[start], 0) == |lh| && Targets(disk[start]) == lh
          && LogHolds(disk, start, lh, contents)
          && SameHomesBut(disk, quiet[at], start, lh))
  }

  ghost predicate SameHomesBut<T>(r: seq<T>, d: seq<T>, start: nat, ts: seq<u32>) {
    |r| == |d| && forall b: nat {:trigger r[b]} :: b < |d| && !InLog(start, b) && b !in ts ==> r[b] == d[b]
  }

  /** All that is known of a reachable state. */
  ghost predicate StateOk(s: State, start: nat) {
    && Coherent(CacheOf(s), start)
    && LogOk(s.lh, s.outstanding, s.committing, s.phase, s.ops, |s.disk|, start)
    && CrashOk(s.disk, s.contents, s.lh, s.phase, s.quiet, s.at, start)
  }

  /** The invariant, sealed: see Seals. */
  ghost predicate Inv(s: State, start: nat) {
    forall k: bool {:trigger Open(k)} :: Open(k) ==> StateOk(s, start)
  }
}
