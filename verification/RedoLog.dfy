/** The on-disk redo log: what recovery makes of a disk image, and what the
    disk looks like after each single-block write of a commit. A crash is a cut
    between two such writes. */
module RedoLog {
  import opened Blocks
  import opened Params

  type Disk = seq<Block>

  /** The header block and the LOGBLOCKS blocks behind it. */
  predicate InLog(start: nat, b: nat) {
    start <= b <= start + LOGBLOCKS
  }

  /** Block numbers that a transaction may record: distinct, on the disk, outside the log. */
  ghost predicate GoodTargets(ts: seq<u32>, start: nat, size: nat) {
    && |ts| <= LOGBLOCKS
    && (forall i :: 0 <= i < |ts| ==> ts[i] < size && !InLog(start, ts[i]))
    && (forall i, j :: 0 <= i < j < |ts| ==> ts[i] != ts[j])
  }

  /** Entry i of the header's block array, which follows the count. */
  function Target(h: Block, i: nat): u32
    requires i < LOGBLOCKS
  {
    Word(h, i + 1)
  }

  /** The header as read_head copies it into memory. */
  function Targets(h: Block): (ts: seq<u32>)
    requires Word(h, 0) <= LOGBLOCKS
  {
    seq(Word(h, 0), i requires 0 <= i < Word(h, 0) => Target(h, i))
  }

  ghost predicate GoodDisk(d: Disk, start: nat) {
    && start + LOGBLOCKS < |d|
    && Word(d[start], 0) <= LOGBLOCKS
    && GoodTargets(Targets(d[start]), start, |d|)
  }

  /** The header block after k iterations of write_head's copy loop. */
  function PutTargets(h: Block, ts: seq<u32>, k: nat): (r: Block)
    requires k <= |ts| <= LOGBLOCKS
    ensures Word(r, 0) == Word(h, 0)
    ensures forall i :: 0 <= i < k ==> Target(r, i) == ts[i]
  {
    if k == 0 then h else PutWord(PutTargets(h, ts, k - 1), k, ts[k - 1])
  }

  /** write_head: what it leaves in the header block is read back by read_head. */
  function PutHead(h: Block, ts: seq<u32>): (r: Block)
    requires |ts| <= LOGBLOCKS
    ensures Word(r, 0) == |ts| && Targets(r) == ts
  {
    PutTargets(PutWord(h, 0, |ts|), ts, |ts|)
  }

  /** install_trans after k iterations. */
  function Installed<T>(d: seq<T>, start: nat, ts: seq<u32>, k: nat): (r: seq<T>)
    requires start + LOGBLOCKS < |d| && k <= |ts|
    requires GoodTargets(ts, start, |d|)
    ensures |r| == |d|
  {
    if k == 0 then d else Installed(d, start, ts, k - 1)[ts[k - 1] := d[start + k]]
  }

  lemma {:induction false} InstalledTarget<T>(d: seq<T>, start: nat, ts: seq<u32>, k: nat, i: nat)
    requires start + LOGBLOCKS < |d| && i < k <= |ts|
    requires GoodTargets(ts, start, |d|)
    ensures Installed(d, start, ts, k)[ts[i]] == d[start + i + 1]
    decreases k
  {
    if i < k - 1 {
      InstalledTarget(d, start, ts, k - 1, i);
    }
  }

  lemma {:induction false} InstalledElsewhere<T>(d: seq<T>, start: nat, ts: seq<u32>, k: nat, b: nat)
    requires start + LOGBLOCKS < |d| && k <= |ts|
    requires GoodTargets(ts, start, |d|)
    requires b < |d| && b !in ts
    ensures Installed(d, start, ts, k)[b] == d[b]
    decreases k
  {
    if k > 0 {
      InstalledElsewhere(d, start, ts, k - 1, b);
    }
  }

  /** recover_from_log, run to its end. */
  function Recovered(d: Disk, start: nat): (r: Disk)
    requires GoodDisk(d, start)
    ensures |r| == |d| && GoodDisk(r, start) && Targets(r[start]) == []
  {
    var ts := Targets(d[start]);
    Installed(d, start, ts, |ts|)[start := PutHead(d[start], [])]
  }

  /** Recovery reads only the log, which installing does not touch: starting over is harmless. */
  lemma InstalledKeepsLog(d: Disk, start: nat, k: nat)
    requires GoodDisk(d, start) && k <= |Targets(d[start])|
    ensures var e := Installed(d, start, Targets(d[start]), k);
            e[start] == d[start] && forall b: nat {:trigger e[b]} :: InLog(start, b) ==> e[b] == d[b]
  {
    forall b: nat | InLog(start, b)
      ensures Installed(d, start, Targets(d[start]), k)[b] == d[b]
    {
      InstalledElsewhere(d, start, Targets(d[start]), k, b);
    }
  }

  /** recover_from_log cut short by a crash after its first k single-block writes. */
  function PartlyRecovered(d: Disk, start: nat, k: nat): (r: Disk)
    requires GoodDisk(d, start)
    ensures |r| == |d| && GoodDisk(r, start)
  {
    var ts := Targets(d[start]);
    if k <= |ts| then
      InstalledKeepsLog(d, start, k);
      Installed(d, start, ts, k)
    else
      Recovered(d, start)
  }

  lemma InstallAfterPartialInstall(d: Disk, start: nat, k: nat)
    requires GoodDisk(d, start) && k <= |Targets(d[start])|
    ensures var ts := Targets(d[start]);
            Installed(Installed(d, start, ts, k), start, ts, |ts|) == Installed(d, start, ts, |ts|)
  {
    var ts := Targets(d[start]);
    var e := Installed(d, start, ts, k);
    InstalledKeepsLog(d, start, k);
    var r, s := Installed(d, start, ts, |ts|), Installed(e, start, ts, |ts|);
    forall b | 0 <= b < |d|
      ensures r[b] == s[b]
    {
      if b in ts {
        var i :| 0 <= i < |ts| && ts[i] == b;
        InstalledTarget(d, start, ts, |ts|, i);
        InstalledTarget(e, start, ts, |ts|, i);
      } else {
        InstalledElsewhere(d, start, ts, |ts|, b);
        InstalledElsewhere(e, start, ts, |ts|, b);
        InstalledElsewhere(d, start, ts, k, b);
      }
    }
  }

  lemma RecoveryStartsOver(d: Disk, start: nat, k: nat)
    requires GoodDisk(d, start)
    ensures Recovered(PartlyRecovered(d, start, k), start) == Recovered(d, start)
  {
    if k <= |Targets(d[start])| {
      InstalledKeepsLog(d, start, k);
      InstallAfterPartialInstall(d, start, k);
    } else {
      PutHeadTwice(d[start]);
    }
  }

  lemma PutHeadTwice(h: Block)
    ensures PutHead(PutHead(h, []), []) == PutHead(h, [])
  {
    PutWordTwice(h, 0, 0);
    var r := PutWord(h, 0, 0);
    assert PutTargets(r, [], 0) == r;
    assert PutTargets(PutWord(r, 0, 0), [], 0) == PutWord(r, 0, 0);
  }

  /** The disk after a series of reboots, the i-th of which dies after crashes[i] writes. */
  ghost function AfterCrashes(d: Disk, start: nat, crashes: seq<nat>): (r: Disk)
    requires GoodDisk(d, start)
    ensures |r| == |d| && GoodDisk(r, start)
    decreases |crashes|
  {
    if crashes == [] then d else AfterCrashes(PartlyRecovered(d, start, crashes[0]), start, crashes[1..])
  }

  /** However often recovery is interrupted, the recovery that ends gives the same disk. */
  lemma {:induction false} RecoverySurvivesCrashes(d: Disk, start: nat, crashes: seq<nat>)
    requires GoodDisk(d, start)
    ensures Recovered(AfterCrashes(d, start, crashes), start) == Recovered(d, start)
    decreases |crashes|
  {
    if crashes != [] {
      RecoveryStartsOver(d, start, crashes[0]);
      RecoverySurvivesCrashes(PartlyRecovered(d, start, crashes[0]), start, crashes[1..]);
    }
  }

  /** write_log after k iterations, copying the cached contents src of the targets. */
  function LogWritten<T>(d: seq<T>, start: nat, ts: seq<u32>, src: seq<T>, k: nat): (r: seq<T>)
    requires start + LOGBLOCKS < |d| == |src| && k <= |ts|
    requires GoodTargets(ts, start, |d|)
    ensures |r| == |d|
    ensures forall i :: 0 <= i < k ==> r[start + i + 1] == src[ts[i]]
    ensures forall b {:trigger r[b]} :: 0 <= b < |d| && !(start < b <= start + k) ==> r[b] == d[b]
  {
    if k == 0 then d else LogWritten(d, start, ts, src, k - 1)[start + k := src[ts[k - 1]]]
  }

  /** The first |ts| log blocks hold the contents of the targets in src. */
  ghost predicate LogHolds<T>(r: seq<T>, start: nat, ts: seq<u32>, src: seq<T>)
    requires start + LOGBLOCKS < |r| == |src| && GoodTargets(ts, start, |r|)
  {
    forall i :: 0 <= i < |ts| ==> r[start + i + 1] == src[ts[i]]
  }

  ghost predicate SameHomes<T>(r: seq<T>, d: seq<T>, start: nat) {
    |r| == |d| && forall b: nat {:trigger r[b]} :: b < |d| && !InLog(start, b) ==> r[b] == d[b]
  }

  /** The disk once the whole log and then its header have been written. */
  function Headed(d: Disk, start: nat, ts: seq<u32>, src: Disk): (r: Disk)
    requires start + LOGBLOCKS < |d| == |src|
    requires GoodTargets(ts, start, |d|)
    ensures |r| == |d| && GoodDisk(r, start) && Targets(r[start]) == ts
    ensures LogHolds(r, start, ts, src) && SameHomes(r, d, start)
  {
    var logged := LogWritten(d, start, ts, src, |ts|);
    logged[start := PutHead(logged[start], ts)]
  }

  /** The home blocks of r are those of d, except that the blocks in ts are as in src. */
  ghost predicate HomesAre<T>(r: seq<T>, d: seq<T>, start: nat, ts: seq<u32>, src: seq<T>)
    requires |r| == |d| == |src|
  {
    forall b: nat {:trigger r[b]} :: b < |d| && !InLog(start, b) ==> r[b] == if b in ts then src[b] else d[b]
  }

  /** Crash atomicity of a commit, before its header write: if the machine stops after k of
      the blocks have been logged, then however often recovery is interrupted, it ends with
      every home block as it was. */
  lemma CrashBeforeHeader(d: Disk, start: nat, ts: seq<u32>, src: Disk, k: nat, crashes: seq<nat>)
    requires start + LOGBLOCKS < |d| == |src| && k <= |ts|
    requires GoodTargets(ts, start, |d|) && Word(d[start], 0) == 0
    ensures var c := LogWritten(d, start, ts, src, k);
            && GoodDisk(c, start)
            && SameHomes(Recovered(AfterCrashes(c, start, crashes), start), d, start)
  {
    var c := LogWritten(d, start, ts, src, k);
    assert c[start] == d[start];
    assert Targets(c[start]) == [];
    RecoverySurvivesCrashes(c, start, crashes);
  }

  /** Crash atomicity of a commit, from its header write on: install_trans and the final
      write_head make the same writes as recovery, so a commit that stops after j of them is a
      recovery that was interrupted there. Recovery ends with every logged block installed. */
  lemma CrashAfterHeader(d: Disk, start: nat, ts: seq<u32>, src: Disk, j: nat, crashes: seq<nat>)
    requires start + LOGBLOCKS < |d| == |src|
    requires GoodTargets(ts, start, |d|)
    ensures var c := PartlyRecovered(Headed(d, start, ts, src), start, j);
            HomesAre(Recovered(AfterCrashes(c, start, crashes), start), d, start, ts, src)
  {
    HeadedRecovers(d, start, ts, src);
    InterruptedHomes(Headed(d, start, ts, src), start, j, crashes, d, ts, src);
  }

  lemma InterruptedHomes(h: Disk, start: nat, j: nat, crashes: seq<nat>, d: Disk, ts: seq<u32>, src: Disk)
    requires GoodDisk(h, start) && |h| == |d| == |src|
    requires HomesAre(Recovered(h, start), d, start, ts, src)
    ensures HomesAre(Recovered(AfterCrashes(PartlyRecovered(h, start, j), start, crashes), start), d, start, ts, src)
  {
    RecoveryStartsOver(h, start, j);
    RecoverySurvivesCrashes(PartlyRecovered(h, start, j), start, crashes);
  }

  lemma HeadedRecovers(d: Disk, start: nat, ts: seq<u32>, src: Disk)
    requires start + LOGBLOCKS < |d| == |src|
    requires GoodTargets(ts, start, |d|)
    ensures var h := Headed(d, start, ts, src);
            HomesAre(Recovered(h, start), d, start, ts, src)
  {
    var h := Headed(d, start, ts, src);
    var r := Recovered(h, start);
    forall b: nat | b < |d| && !InLog(start, b)
      ensures r[b] == if b in ts then src[b] else d[b]
    {
      if b in ts {
        var i :| 0 <= i < |ts| && ts[i] == b;
        InstalledTarget(h, start, ts, |ts|, i);
      } else {
        InstalledElsewhere(h, start, ts, |ts|, b);
      }
    }
  }
}
