/** The log as log.c runs it. The buffer cache is seen through its contract: bread shows
    the latest contents of a block (cached), bwrite puts them on the disk. The machine may
    stop at any point, by a crash or by the cache's "no buffers" panic; a method that returns
    false has stopped there. life is the number of block writes until then, and history
    records the disk after every write. */
module Log {
  import opened Blocks
  import opened Params
  import opened RedoLog
  import opened Seals

  /** The log blocks are always written through the cache. */
  ghost predicate LogWrittenThrough<T>(disk: seq<T>, cached: seq<T>, start: nat) {
    && start + LOGBLOCKS < |disk| == |cached|
    && forall b: nat {:trigger cached[b]} :: InLog(start, b) ==> cached[b] == disk[b]
  }

  /** write_head's stores into the header buffer. */
  method FillHeader(h: Block, lh: seq<u32>) returns (hb: Block)
    requires |lh| <= LOGBLOCKS
    ensures hb == PutHead(h, lh)
  {
    hb := PutWord(h, 0, |lh|);
    var i := 0;
    while i < |lh|
      invariant 0 <= i <= |lh| && hb == PutTargets(PutWord(h, 0, |lh|), lh, i)
    {
      hb := PutWord(hb, i + 1, lh[i]);
      i := i + 1;
    }
  }

  datatype LogWriteResult = Logged | TooBig | OutsideTransaction
  datatype EndOpResult = Ended | WasCommitting | Stopped

  /** log_write's update of lh: a block that is already recorded is absorbed. */
  function Absorb(lh: seq<u32>, n: u32): (r: seq<u32>)
    ensures forall m :: m in r <==> m in lh || m == n
  {
    if n in lh then lh else lh + [n]
  }

  /** The disks in history from h0 on are those that install_trans passes through, in order. */
  ghost predicate InstallTrace<T>(history: seq<seq<T>>, h0: nat, d: seq<T>, start: nat, ts: seq<u32>, k: nat)
    requires start + LOGBLOCKS < |d| && k <= |ts| && GoodTargets(ts, start, |d|)
  {
    && |history| == h0 + k
    && forall h :: h0 <= h < |history| ==> history[h] == Installed(d, start, ts, h - h0 + 1)
  }

  lemma InstallTraceStep<T>(history: seq<seq<T>>, h0: nat, d: seq<T>, start: nat, ts: seq<u32>, k: nat)
    requires start + LOGBLOCKS < |d| && k < |ts| && GoodTargets(ts, start, |d|)
    requires InstallTrace(history, h0, d, start, ts, k)
    ensures InstallTrace(history + [Installed(d, start, ts, k + 1)], h0, d, start, ts, k + 1)
  {
  }

  class Log {
    const start: nat
    var disk: Disk
    var cached: Disk
    var lh: seq<u32>
    var outstanding: int
    var committing: bool
    var life: nat
    ghost var history: seq<Disk>
    ghost var pinned: seq<u32>        // the blocks with a bpin still to be undone

    ghost predicate Valid()
      reads this
    {
      && LogWrittenThrough(disk, cached, start)
      && GoodTargets(lh, start, |disk|)
    }

    /** initlog up to its call of recover_from_log. */
    constructor (start: nat, disk: Disk, life: nat)
      requires start + LOGBLOCKS < |disk|
      ensures Valid() && this.start == start && this.disk == cached == disk
      ensures lh == [] && history == [] && pinned == [] && outstanding == 0 && !committing && this.life == life
    {
      this.start, this.disk, cached, lh, history, pinned, this.life := start, disk, disk, [], [], [], life;
      outstanding, committing := 0, false;
    }

    /** A caller of bread changes the block it holds. */
    method Edit(n: nat, data: Block)
      requires Valid() && n < |disk| && !InLog(start, n)
      modifies this`cached
      ensures Valid() && cached == old(cached)[n := data]
    {
      cached := cached[n := data];
    }

    /** Change a buffer and write it through. */
    method Bwrite(n: nat, data: Block)
      requires Valid() && n < |disk| && life > 0
      modifies this`disk, this`cached, this`history, this`life
      ensures Valid() && life == old(life) - 1
      ensures disk == old(disk)[n := data] && cached == old(cached)[n := data]
      ensures history == old(history) + [disk]
    {
      life := life - 1;
      cached := cached[n := data];
      disk := disk[n := data];
      history := history + [disk];
    }

    /** Its k-th write leaves the disk with the first k recorded blocks in the log. */
    method WriteLog() returns (ok: bool, ghost k: nat)
      requires Valid()
      modifies this`disk, this`cached, this`history, this`life
      ensures Valid() && SameHomes(cached, old(cached), start)
      ensures k <= |lh| && life == old(life) - k && (if ok then k == |lh| else k < |lh| && life == 0)
      ensures disk == LogWritten(old(disk), start, lh, old(cached), k)
      ensures |history| == |old(history)| + k && old(history) <= history
      ensures forall h :: |old(history)| <= h < |history| ==>
                history[h] == LogWritten(old(disk), start, lh, old(cached), h - |old(history)| + 1)
    {
      var tail := 0;
      k := 0;
      while tail < |lh|
        invariant 0 <= k == tail <= |lh|
        invariant Valid() && SameHomes(cached, old(cached), start) && life == old(life) - k
        invariant disk == LogWritten(old(disk), start, lh, old(cached), tail)
        invariant |history| == |old(history)| + k && old(history) <= history
        invariant forall h :: |old(history)| <= h < |history| ==>
                    history[h] == LogWritten(old(disk), start, lh, old(cached), h - |old(history)| + 1)
      {
        if life == 0 { return false, k; }
        Bwrite(start + tail + 1, cached[lh[tail]]);
        tail := tail + 1;
        k := k + 1;
      }
      ok := true;
    }

    method WriteHead() returns (ok: bool)
      requires Valid()
      modifies this`disk, this`cached, this`history, this`life
      ensures Valid() && (ok <==> old(life) > 0) && life == if ok then old(life) - 1 else 0
      ensures !ok ==> disk == old(disk) && cached == old(cached) && history == old(history)
      ensures ok ==> && disk == old(disk)[start := PutHead(old(disk)[start], lh)]
                     && cached == old(cached)[start := disk[start]]
                     && history == old(history) + [disk]
    {
      if life == 0 { return false; }
      var hb := FillHeader(cached[start], lh);
      Bwrite(start, hb);
      ok := true;
    }

    method ReadHead() returns (ok: bool)
      requires LogWrittenThrough(disk, cached, start) && GoodDisk(disk, start)
      modifies this`lh
      ensures ok <==> life > 0
      ensures ok ==> Valid() && lh == Targets(disk[start])
      ensures !ok ==> lh == old(lh)
    {
      if life == 0 { return false; }
      var n := Word(cached[start], 0);
      lh := [];
      while |lh| < n
        invariant |lh| <= n && forall i :: 0 <= i < |lh| ==> lh[i] == Target(cached[start], i)
      {
        lh := lh + [Target(cached[start], |lh|)];
      }
      assert lh == Targets(disk[start]);
      ok := true;
    }

    /** Its k-th write leaves the disk with the first k recorded blocks installed. */
    method InstallTrans(recovering: bool) returns (ok: bool, ghost k: nat)
      requires Valid()
      requires !recovering ==> pinned == lh
      modifies this`disk, this`cached, this`history, this`pinned, this`life
      ensures Valid()
      ensures k <= |lh| && life == old(life) - k && (if ok then k == |lh| else k < |lh| && life == 0)
      ensures disk == Installed(old(disk), start, lh, k)
      ensures cached == Installed(old(cached), start, lh, k)
      ensures pinned == if recovering then old(pinned) else lh[k..]
      ensures old(history) <= history && InstallTrace(history, |old(history)|, old(disk), start, lh, k)
    {
      var tail := 0;
      k := 0;
      while tail < |lh|
        invariant 0 <= k == tail <= |lh|
        invariant Valid() && life == old(life) - k
        invariant disk == Installed(old(disk), start, lh, tail)
        invariant cached == Installed(old(cached), start, lh, tail)
        invariant pinned == if recovering then old(pinned) else lh[tail..]
        invariant old(history) <= history && InstallTrace(history, |old(history)|, old(disk), start, lh, k)
      {
        if life == 0 { return false, k; }
        InstallOne(tail, old(disk), old(cached), |old(history)|);
        if !recovering {
          pinned := pinned[1..];
        }
        tail := tail + 1;
        k := k + 1;
      }
      ok := true;
    }

    /** One round of install_trans, of a disk d and a cache e with tail blocks installed. */
    method InstallOne(tail: nat, ghost d: Disk, ghost e: Disk, ghost h0: nat)
      requires Valid() && tail < |lh| && |d| == |e| == |disk| && h0 <= |history| && life > 0
      requires disk == Installed(d, start, lh, tail) && cached == Installed(e, start, lh, tail)
      requires InstallTrace(history, h0, d, start, lh, tail)
      modifies this`disk, this`cached, this`history, this`life
      ensures life == old(life) - 1
      ensures Valid() && disk == Installed(d, start, lh, tail + 1) && cached == Installed(e, start, lh, tail + 1)
      ensures old(history) <= history && InstallTrace(history, h0, d, start, lh, tail + 1)
    {
      LogBlockKept(d, start, lh, tail);
      LogBlockKept(e, start, lh, tail);
      InstallTraceStep(history, h0, d, start, lh, tail);
      Bwrite(lh[tail], cached[start + tail + 1]);
    }

    /** On a freshly booted machine; stopped anywhere, it leaves a disk that recovers to the same. */
    method RecoverFromLog() returns (ok: bool)
      requires start + LOGBLOCKS < |disk| && cached == disk && GoodDisk(disk, start)
      modifies this`disk, this`cached, this`history, this`lh, this`pinned, this`life
      ensures ok <==> old(life) > |Targets(old(disk)[start])|
      ensures !ok ==> life == 0
      ensures ok ==> && Valid() && lh == [] && disk == Recovered(old(disk), start) && cached == disk
                     && Word(disk[start], 0) == 0
      ensures pinned == old(pinned) && old(history) <= history
      ensures forall h :: |old(history)| <= h < |history| ==> RecoversAlike(history[h], old(disk), start)
    {
      ok := ReadHead();
      if !ok { return; }
      ghost var k;
      ok, k := InstallTrans(true);
      InstallTraceRecovers(history, |old(history)|, old(disk), start, k);
      if !ok { return; }
      ghost var mid := history;
      ok := EraseLog(old(disk), lh);
      if ok {
        RecoveredAlike(mid, |old(history)|, disk, old(disk), start);
      }
    }

    /** write_log and the first write_head: nothing is committed until the last of these writes. */
    method LogTransaction() returns (ok: bool)
      requires Valid() && Word(disk[start], 0) == 0
      modifies this`disk, this`cached, this`history, this`life
      ensures ok <==> old(life) > |lh|
      ensures life == if ok then old(life) - |lh| - 1 else 0
      ensures Valid() && SameHomes(cached, old(cached), start) && old(history) <= history
      ensures CommitTrace(history, |old(history)|, old(disk), start, lh, old(cached))
      ensures !ok ==> |history| <= |old(history)| + |lh|
      ensures ok ==> && |history| == |old(history)| + |lh| + 1
                     && disk == history[|history| - 1] == Headed(old(disk), start, lh, old(cached))
    {
      ghost var k;
      ok, k := WriteLog();
      forall h | |old(history)| <= h < |history|
        ensures Undone(history[h], old(disk), start)
      {
        LoggingIsUndone(old(disk), start, lh, old(cached), h - |old(history)| + 1);
      }
      if !ok { return; }
      ok := WriteHead();
      InstallingIsDone(old(disk), start, lh, old(cached), 0);
    }

    /** install_trans and the last write_head: a crash after any of them is repaired by recovery. */
    method InstallTransaction(ghost d: Disk, ghost src: Disk) returns (ok: bool)
      requires Valid() && pinned == lh && |d| == |src| == |disk|
      requires disk == Headed(d, start, lh, src)
      modifies this`disk, this`cached, this`history, this`lh, this`pinned, this`life
      ensures ok <==> old(life) > |old(lh)|
      ensures life == if ok then old(life) - |old(lh)| - 1 else 0
      ensures old(history) <= history
      ensures AllDone(history, |old(history)|, d, start, old(lh), src)
      ensures ok ==> && Valid() && lh == pinned == []
                     && disk == Recovered(Headed(d, start, old(lh), src), start)
                     && SameHomes(cached, Installed(old(cached), start, old(lh), |old(lh)|), start)
    {
      ghost var headed, ts := disk, lh;
      ok := InstallAll(headed, d, src);
      if !ok { return; }
      ghost var mid, full := history, cached;
      ok := EraseLog(headed, ts);
      if ok {
        RecoveredIsDone(disk, headed, d, start, ts, src);
        OneMoreDone(mid, |old(history)|, disk, d, start, ts, src);
        HeaderIsNoHome(full, start, disk[start]);
      }
    }

    method InstallAll(ghost e: Disk, ghost d: Disk, ghost src: Disk) returns (ok: bool)
      requires Valid() && pinned == lh && |d| == |src| == |disk| && disk == e == Headed(d, start, lh, src)
      modifies this`disk, this`cached, this`history, this`pinned, this`life
      ensures ok <==> old(life) >= |lh|
      ensures life == if ok then old(life) - |lh| else 0
      ensures old(history) <= history && AllDone(history, |old(history)|, d, start, lh, src)
      ensures ok ==> && Valid() && pinned == [] && disk == Installed(e, start, lh, |lh|)
                     && cached == Installed(old(cached), start, lh, |lh|)
    {
      ghost var k;
      ok, k := InstallTrans(false);
      InstallingAllDone(e, d, start, lh, src);
      InstallTraceDone(history, |old(history)|, e, d, start, lh, src, k);
    }

    /** The last write_head, once e is installed in full: the disk is as recovery would leave it. */
    method EraseLog(ghost e: Disk, ghost ts: seq<u32>) returns (ok: bool)
      requires Valid() && GoodDisk(e, start) && ts == Targets(e[start]) && disk == Installed(e, start, ts, |ts|)
      modifies this`disk, this`cached, this`history, this`lh, this`life
      ensures Valid() && lh == [] && (ok <==> old(life) > 0) && life == if ok then old(life) - 1 else 0
      ensures !ok ==> history == old(history)
      ensures ok ==> && disk == Recovered(e, start) && cached == old(cached)[start := disk[start]]
                     && history == old(history) + [disk]
    {
      InstalledKeepsLog(e, start, |ts|);
      lh := [];
      ok := WriteHead();
    }

    /** commit: what a crash after any of its writes leads to, and where it ends. */
    method Commit() returns (ok: bool)
      requires Valid() && pinned == lh && Word(disk[start], 0) == 0
      modifies this`disk, this`cached, this`history, this`lh, this`pinned, this`life
      ensures ok <==> old(lh) == [] || old(life) >= 2 * |old(lh)| + 2
      ensures life == if !ok then 0 else if old(lh) == [] then old(life) else old(life) - 2 * |old(lh)| - 2
      ensures old(history) <= history
      ensures CommitTrace(history, |old(history)|, old(disk), start, old(lh), old(cached))
      ensures ok ==> && Valid() && lh == pinned == [] && Word(disk[start], 0) == 0
                     && SameHomes(cached, old(cached), start)
                     && HomesAre(disk, old(disk), start, old(lh), old(cached))
    {
      if |lh| == 0 {
        return true;
      }
      ok := LogTransaction();
      if !ok { return; }
      ghost var mid, logged := history, cached;
      ok := InstallTransaction(old(disk), old(cached));
      CommitTraceExtends(mid, history, |old(history)|, old(disk), start, old(lh), old(cached));
      if ok {
        HeadedRecovers(old(disk), start, old(lh), old(cached));
        ReinstalledHomes(old(cached), logged, start, old(lh));
      }
    }

    /** One turn of begin_op's loop: false means the caller sleeps and tries again. */
    method TryBeginOp() returns (admitted: bool)
      modifies this`outstanding
      ensures admitted <==> !committing && |lh| + (old(outstanding) + 1) * MAXOPBLOCKS <= LOGBLOCKS
      ensures outstanding == old(outstanding) + if admitted then 1 else 0
    {
      if committing {
        return false;
      } else if |lh| + (outstanding + 1) * MAXOPBLOCKS > LOGBLOCKS {
        return false;
      } else {
        outstanding := outstanding + 1;
        return true;
      }
    }

    /** log_write of a buffer that the caller has changed. */
    method LogWrite(n: u32) returns (r: LogWriteResult)
      requires Valid() && pinned == lh && n < |disk| && !InLog(start, n)
      modifies this`lh, this`pinned
      ensures Valid() && pinned == lh
      ensures r.TooBig? <==> |old(lh)| >= LOGBLOCKS
      ensures r.OutsideTransaction? <==> |old(lh)| < LOGBLOCKS && outstanding < 1
      ensures lh == if r.Logged? then Absorb(old(lh), n) else old(lh)
    {
      if |lh| >= LOGBLOCKS {
        return TooBig;
      }
      if outstanding < 1 {
        return OutsideTransaction;
      }
      var i := 0;
      while i < |lh|
        invariant 0 <= i <= |lh| && n !in lh[..i]
      {
        if lh[i] == n {
          break;
        }
        i := i + 1;
      }
      if i == |lh| {
        assert lh[..i] == lh;
        lh := lh + [n];
        pinned := pinned + [n];
      }
      r := Logged;
    }

    /** end_op: the last operation out commits, and no crash during it loses or splits the
        transaction. A result of Stopped is a stop inside commit. */
    method EndOp() returns (r: EndOpResult)
      requires Valid() && pinned == lh && Word(disk[start], 0) == 0
      modifies this
      ensures outstanding == old(outstanding) - 1
      ensures r.WasCommitting? <==> old(committing)
      ensures r.Stopped? <==> !old(committing) && outstanding == 0 && old(lh) != [] && old(life) < 2 * |old(lh)| + 2
      ensures r.Stopped? ==> life == 0 && committing
      ensures outstanding != 0 || r.WasCommitting? ==>
                && disk == old(disk) && cached == old(cached) && lh == old(lh) && pinned == old(pinned)
                && committing == old(committing) && history == old(history)
      ensures r.Ended? && outstanding == 0 ==> && Valid() && lh == pinned == [] && !committing
                                               && Word(disk[start], 0) == 0
                                               && SameHomes(cached, old(cached), start)
                                               && HomesAre(disk, old(disk), start, old(lh), old(cached))
      ensures old(history) <= history
      ensures forall h :: |old(history)| <= h < |history| ==>
                Undone(history[h], old(disk), start) || Done(history[h], old(disk), start, old(lh), old(cached))
    {
      outstanding := outstanding - 1;
      if committing {
        return WasCommitting;
      }
      if outstanding != 0 {
        return Ended;
      }
      committing := true;
      var ok := Commit();
      if !ok {
        return Stopped;
      }
      committing := false;
      r := Ended;
    }
  }

  ghost predicate RecoversAlike(e: Disk, d: Disk, start: nat)
    requires GoodDisk(d, start)
  {
    forall k: bool {:trigger Shown(k)} :: Shown(k) ==>
      GoodDisk(e, start) && Recovered(e, start) == Recovered(d, start)
  }

  lemma InstallTraceRecovers(history: seq<Disk>, h0: nat, d: Disk, start: nat, k: nat)
    requires GoodDisk(d, start) && k <= |Targets(d[start])|
    requires InstallTrace(history, h0, d, start, Targets(d[start]), k)
    ensures forall h :: h0 <= h < |history| ==> RecoversAlike(history[h], d, start)
  {
    forall h | h0 <= h < |history|
      ensures RecoversAlike(history[h], d, start)
    {
      PartlyRecoversAlike(history[h], d, start, h - h0 + 1);
    }
  }

  lemma RecoveredAlike(history: seq<Disk>, h0: nat, c: Disk, d: Disk, start: nat)
    requires GoodDisk(d, start) && c == Recovered(d, start)
    requires forall h :: h0 <= h < |history| ==> RecoversAlike(history[h], d, start)
    ensures forall h :: h0 <= h < |history + [c]| ==> RecoversAlike((history + [c])[h], d, start)
    ensures Word(c[start], 0) == 0
  {
    var k := |Targets(d[start])| + 1;
    assert c == PartlyRecovered(d, start, k);
    RecoveryStartsOver(d, start, k);
    assert RecoversAlike(c, d, start);
  }

  lemma PartlyRecoversAlike(e: Disk, d: Disk, start: nat, j: nat)
    requires GoodDisk(d, start) && j <= |Targets(d[start])| && e == Installed(d, start, Targets(d[start]), j)
    ensures RecoversAlike(e, d, start)
  {
    assert e == PartlyRecovered(d, start, j);
    RecoveryStartsOver(d, start, j);
  }

  /** However often the recovery of e is interrupted, it ends with the home blocks of d. */
  ghost predicate Undone(e: Disk, d: Disk, start: nat) {
    forall k: bool {:trigger Shown(k)} :: Shown(k) ==>
      && GoodDisk(e, start)
      && forall crashes :: SameHomes(Recovered(AfterCrashes(e, start, crashes), start), d, start)
  }

  /** However often the recovery of e is interrupted, it ends with the home blocks of d in
      which the blocks ts have the contents src. */
  ghost predicate Done(e: Disk, d: Disk, start: nat, ts: seq<u32>, src: Disk) {
    forall k: bool {:trigger Shown(k)} :: Shown(k) ==>
      && |e| == |d| == |src| && GoodDisk(e, start)
      && forall crashes :: HomesAre(Recovered(AfterCrashes(e, start, crashes), start), d, start, ts, src)
  }

  ghost predicate AllDone(history: seq<Disk>, h0: nat, d: Disk, start: nat, ts: seq<u32>, src: Disk) {
    forall h {:trigger history[h]} :: h0 <= h < |history| ==> Done(history[h], d, start, ts, src)
  }

  lemma InstallTraceDone(history: seq<Disk>, h0: nat, e: Disk, d: Disk, start: nat, ts: seq<u32>, src: Disk, k: nat)
    requires start + LOGBLOCKS < |d| == |src| && k <= |ts| && GoodTargets(ts, start, |d|)
    requires |e| == |d| && InstallTrace(history, h0, e, start, ts, k)
    requires forall j: nat {:trigger Installed(e, start, ts, j)} :: j <= |ts| ==>
               Done(Installed(e, start, ts, j), d, start, ts, src)
    ensures AllDone(history, h0, d, start, ts, src)
  {
  }

  lemma InstallingAllDone(e: Disk, d: Disk, start: nat, ts: seq<u32>, src: Disk)
    requires start + LOGBLOCKS < |d| == |src| && GoodTargets(ts, start, |d|) && e == Headed(d, start, ts, src)
    ensures forall j: nat {:trigger Installed(e, start, ts, j)} :: j <= |ts| ==>
              Done(Installed(e, start, ts, j), d, start, ts, src)
  {
    forall j: nat | j <= |ts|
      ensures Done(Installed(e, start, ts, j), d, start, ts, src)
    {
      InstalledIsDone(Installed(e, start, ts, j), e, d, start, ts, src, j);
    }
  }

  lemma RecoveredIsDone(c: Disk, e: Disk, d: Disk, start: nat, ts: seq<u32>, src: Disk)
    requires start + LOGBLOCKS < |d| == |src| && GoodTargets(ts, start, |d|)
    requires e == Headed(d, start, ts, src) && c == Recovered(e, start)
    ensures Done(c, d, start, ts, src)
  {
    assert c == PartlyRecovered(e, start, |ts| + 1);
    InstallingIsDone(d, start, ts, src, |ts| + 1);
  }

  lemma HeaderIsNoHome<T>(d: seq<T>, start: nat, v: T)
    requires start < |d|
    ensures SameHomes(d[start := v], d, start)
  {
  }

  lemma OneMoreDone(history: seq<Disk>, h0: nat, c: Disk, d: Disk, start: nat, ts: seq<u32>, src: Disk)
    requires AllDone(history, h0, d, start, ts, src) && Done(c, d, start, ts, src)
    ensures AllDone(history + [c], h0, d, start, ts, src)
  {
  }

  lemma InstalledIsDone(c: Disk, e: Disk, d: Disk, start: nat, ts: seq<u32>, src: Disk, j: nat)
    requires start + LOGBLOCKS < |d| == |src| && j <= |ts| && GoodTargets(ts, start, |d|)
    requires e == Headed(d, start, ts, src) && c == Installed(e, start, ts, j)
    ensures Done(c, d, start, ts, src)
  {
    assert c == PartlyRecovered(e, start, j);
    InstallingIsDone(d, start, ts, src, j);
  }

  /** The disks in history from h0 on are those of a commit of the blocks ts with contents src:
      the first |ts| of them are before the commit point, all later ones behind it. */
  ghost predicate CommitTrace(history: seq<Disk>, h0: nat, d: Disk, start: nat, ts: seq<u32>, src: Disk) {
    && (forall h :: h0 <= h < |history| && h < h0 + |ts| ==> Undone(history[h], d, start))
    && (forall h :: h0 + |ts| <= h < |history| ==> Done(history[h], d, start, ts, src))
  }

  lemma CommitTraceExtends(mid: seq<Disk>, history: seq<Disk>, h0: nat, d: Disk, start: nat, ts: seq<u32>, src: Disk)
    requires CommitTrace(mid, h0, d, start, ts, src) && h0 + |ts| <= |mid| && mid <= history
    requires AllDone(history, |mid|, d, start, ts, src)
    ensures CommitTrace(history, h0, d, start, ts, src)
  {
    assert forall h :: 0 <= h < |mid| ==> history[h] == mid[h];
  }

  lemma LoggingIsUndone(d: Disk, start: nat, ts: seq<u32>, src: Disk, k: nat)
    requires start + LOGBLOCKS < |d| == |src| && k <= |ts|
    requires GoodTargets(ts, start, |d|) && Word(d[start], 0) == 0
    ensures Undone(LogWritten(d, start, ts, src, k), d, start)
  {
    var c := LogWritten(d, start, ts, src, k);
    CrashBeforeHeader(d, start, ts, src, k, []);
    forall crashes
      ensures SameHomes(Recovered(AfterCrashes(c, start, crashes), start), d, start)
    {
      CrashBeforeHeader(d, start, ts, src, k, crashes);
    }
  }

  lemma InstallingIsDone(d: Disk, start: nat, ts: seq<u32>, src: Disk, j: nat)
    requires start + LOGBLOCKS < |d| == |src|
    requires GoodTargets(ts, start, |d|)
    ensures Done(PartlyRecovered(Headed(d, start, ts, src), start, j), d, start, ts, src)
  {
    var c := PartlyRecovered(Headed(d, start, ts, src), start, j);
    forall crashes
      ensures HomesAre(Recovered(AfterCrashes(c, start, crashes), start), d, start, ts, src)
    {
      CrashAfterHeader(d, start, ts, src, j, crashes);
    }
  }

  /** Installing what the log holds does not change a cache that already shows it. */
  lemma ReinstalledHomes<T>(src: seq<T>, cached: seq<T>, start: nat, ts: seq<u32>)
    requires start + LOGBLOCKS < |cached| && GoodTargets(ts, start, |cached|)
    requires SameHomes(cached, src, start) && LogHolds(cached, start, ts, src)
    ensures SameHomes(Installed(cached, start, ts, |ts|), src, start)
  {
    forall b: nat | b < |cached| && !InLog(start, b)
      ensures Installed(cached, start, ts, |ts|)[b] == src[b]
    {
      if b in ts {
        var i :| 0 <= i < |ts| && ts[i] == b;
        InstalledTarget(cached, start, ts, |ts|, i);
      } else {
        InstalledElsewhere(cached, start, ts, |ts|, b);
      }
    }
  }

  lemma LogBlockKept<T>(d: seq<T>, start: nat, ts: seq<u32>, k: nat)
    requires start + LOGBLOCKS < |d| && k < |ts| && GoodTargets(ts, start, |d|)
    ensures Installed(d, start, ts, k)[start + k + 1] == d[start + k + 1]
    ensures Installed(d, start, ts, k + 1) == Installed(d, start, ts, k)[ts[k] := d[start + k + 1]]
  {
    InstalledElsewhere(d, start, ts, k, start + k + 1);
  }
}
