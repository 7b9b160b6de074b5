/** The layers together: if every file operation is done within a transaction, then whatever
    crashes happen, the file system found after recovery is a sound one, with the files of a
    moment when no operation was in progress. */
module CrashSafeFiles {
  import opened Bitmap
  import opened Blocks
  import opened FileContent
  import opened FileOps
  import opened FileRuns
  import opened Files
  import opened FileSystem
  import opened Params
  import opened RedoLog
  import opened Seals
  import Storage
  import StorageProof

  /** The log lies below the inode blocks. */
  predicate LogBelow(sb: Superblock, start: nat) {
    start + LOGBLOCKS < sb.inodestart
  }

  /** The log's blocks have no part in a file system. */
  lemma SameFileSystem(sb: Superblock, v: View, start: nat, disk': seq<Block>)
    requires FsOk(sb, v) && LogBelow(sb, start) && SameHomes(v.disk, disk', start)
    ensures FsOk(sb, View(disk', v.inodes, v.owner))
    ensures forall n: nat {:trigger Content(disk', v.inodes, n)} :: n < |v.inodes| ==>
              Content(disk', v.inodes, n) == Content(v.disk, v.inodes, n)
  {
    assert Open(true);
    forall b: nat | sb.inodestart <= b < sb.size
      ensures Kept(v.disk, disk', b)
    {
    }
    forall b | b in v.owner
      ensures Kept(v.disk, disk', b)
    {
      assert v.owner[b] == v.owner[b];
    }
    forall r
      ensures Ref(disk', v.inodes, r) == Ref(v.disk, v.inodes, r)
    {
      RefKept(sb, v.disk, v.inodes, v.owner, {}, disk', r);
    }
    forall c: nat | c < sb.size
      ensures UsedIn(sb, disk', c) <==> UsedIn(sb, v.disk, c)
    {
      BitmapBlock(sb, v.disk, c);
      assert Kept(v.disk, disk', sb.bmapstart + c / BPB);
    }
    SameRefsSound(sb, v, disk', v.inodes);
    forall n: nat | n < |v.inodes|
      ensures NoHoles(disk', v.inodes, n) && Content(disk', v.inodes, n) == Content(v.disk, v.inodes, n)
    {
      assert NoHoles(v.disk, v.inodes, n);
      ContentKept(sb, v.disk, v.inodes, v.owner, disk', v.inodes, n);
    }
    forall n: nat | n < |v.inodes|
      ensures Stored(sb, View(disk', v.inodes, v.owner), n)
    {
      assert Stored(sb, v, n) && Kept(v.disk, disk', sb.inodestart + n / IPB);
    }
  }

  /** The disk holds a sound file system with these files. */
  ghost predicate HoldsFiles(sb: Superblock, disk: seq<Block>, files: seq<seq<byte>>) {
    exists v: View :: v.disk == disk && FsOk(sb, v) && FlatFiles(v) == files
  }

  /** A disk holds only one file system: the inodes are on it. */
  lemma FilesAreUnique(sb: Superblock, v: View, w: View)
    requires FsOk(sb, v) && FsOk(sb, w) && v.disk == w.disk
    ensures FlatFiles(v) == FlatFiles(w)
  {
    assert Open(true);
    forall n: nat | n < |v.inodes|
      ensures v.inodes[n] == w.inodes[n]
    {
      assert Stored(sb, v, n) && Stored(sb, w, n);
    }
    assert v.inodes == w.inodes;
  }

  lemma SameFiles(sb: Superblock, disk: seq<Block>, files: seq<seq<byte>>, start: nat, disk': seq<Block>)
    requires HoldsFiles(sb, disk, files) && LogBelow(sb, start) && SameHomes(disk', disk, start)
    ensures HoldsFiles(sb, disk', files)
  {
    var v: View :| v.disk == disk && FsOk(sb, v) && FlatFiles(v) == files;
    SameFileSystem(sb, v, start, disk');
    var w := View(disk', v.inodes, v.owner);
    forall n: nat | n < |v.inodes|
      ensures FlatFiles(w)[n] == FlatFiles(v)[n]
    {
      assert Content(disk', v.inodes, n) == Content(v.disk, v.inodes, n);
    }
    assert FlatFiles(w) == files;
  }

  // ---------- transactions of file operations ----------

  /** Operations and what came of them, the last one first. */
  datatype Batch = Nothing | Done(before: Batch, op: Op, out: Outcome)

  /** The flat files after the operations. */
  function After(files: seq<seq<byte>>, b: Batch): seq<seq<byte>> {
    match b
    case Nothing => files
    case Done(before, op, out) => Apply(After(files, before), op, out)
  }

  /** Flat files allow each outcome, given the operations before it. */
  predicate AllAllowed(files: seq<seq<byte>>, b: Batch) {
    match b
    case Nothing => true
    case Done(before, op, out) => AllAllowed(files, before) && Allowed(After(files, before), op, out)
  }

  function Then(a: Batch, b: Batch): Batch {
    match b
    case Nothing => a
    case Done(before, op, out) => Done(Then(a, before), op, out)
  }

  lemma {:induction false} AfterThen(files: seq<seq<byte>>, a: Batch, b: Batch)
    requires AllAllowed(files, a) && AllAllowed(After(files, a), b)
    ensures AllAllowed(files, Then(a, b)) && After(files, Then(a, b)) == After(After(files, a), b)
  {
    if b.Done? {
      AfterThen(files, a, b.before);
    }
  }

  function Ops(b: Batch): seq<Op> {
    match b
    case Nothing => []
    case Done(before, op, _) => Ops(before) + [op]
  }

  /** The operations in b are allowed on the files, and turn them into files'. */
  ghost predicate Leads(files: seq<seq<byte>>, b: Batch, files': seq<seq<byte>>) {
    AllAllowed(files, b) && files' == After(files, b)
  }

  /** Whatever files the disk holds, the batch turns them into those that disk' holds. */
  ghost predicate Does(sb: Superblock, disk: seq<Block>, disk': seq<Block>, b: Batch) {
    forall files {:trigger HoldsFiles(sb, disk, files)} :: HoldsFiles(sb, disk, files) ==>
      exists files' :: Leads(files, b, files') && HoldsFiles(sb, disk', files')
  }

  lemma LeadsDoes(sb: Superblock, v: View, v': View, b: Batch)
    requires FsOk(sb, v) && FsOk(sb, v') && Leads(FlatFiles(v), b, FlatFiles(v'))
    ensures Does(sb, v.disk, v'.disk, b)
  {
    forall files | HoldsFiles(sb, v.disk, files)
      ensures exists files' :: Leads(files, b, files') && HoldsFiles(sb, v'.disk, files')
    {
      var w: View :| w.disk == v.disk && FsOk(sb, w) && FlatFiles(w) == files;
      FilesAreUnique(sb, v, w);
      assert HoldsFiles(sb, v'.disk, FlatFiles(v'));
    }
  }

  /** What the code of the file system does to its disk. */
  method Transact(fs: Fs, ops: seq<Op>) returns (panicked: bool, ghost b: Batch)
    requires FsOk(fs.sb, fs.Now())
    requires forall i :: 0 <= i < |ops| && ops[i].Write? ==> |ops[i].src| < 0x1_0000_0000
    modifies fs
    ensures !panicked && FsOk(fs.sb, fs.Now())
    ensures Ops(b) == ops && Does(fs.sb, old(fs.disk), fs.disk, b)
  {
    panicked, b := false, Nothing;
    ghost var v := fs.Now();
    for i := 0 to |ops|
      invariant !panicked && FsOk(fs.sb, fs.Now())
      invariant Ops(b) == ops[..i] && Leads(FlatFiles(v), b, FlatFiles(fs.Now()))
    {
      var out;
      out, panicked := FileRuns.Step(fs, ops[i]);
      b := Done(b, ops[i], out);
    }
    LeadsDoes(fs.sb, v, fs.Now(), b);
  }

  // ---------- runs ----------

  /** The last moment up to k when no operation was in progress. */
  ghost function LastQuiet(states: seq<Storage.State>, k: nat): (j: nat)
    requires k < |states|
    ensures j <= k
  {
    if k == 0 || StorageProof.IsQuiet(states[k]) then k else LastQuiet(states, k - 1)
  }

  /** Each transaction of the run is the given batch of file operations. */
  ghost predicate DoesFiles(sb: Superblock, states: seq<Storage.State>, acts: seq<Storage.Action>,
                            batches: seq<Batch>) {
    && |batches| == |acts| < |states|
    && forall k: nat {:trigger batches[k]} :: k < |acts| && StorageProof.EndsTransaction(states, acts, k) ==>
         Does(sb, states[LastQuiet(states, k)].contents, states[k + 1].contents, batches[k])
  }

  /** A crash at moment k may lead back to moment j. */
  ghost predicate GoesBack(states: seq<Storage.State>, acts: seq<Storage.Action>, k: nat, j: nat)
    requires k <= |acts| < |states|
  {
    j <= k && StorageProof.IsQuiet(states[j]) && StorageProof.NotBefore(states, acts, j, k)
  }

  /** The operations b count after step k: a transaction adds its batch, and a crash goes back to
      those that counted at an earlier moment without an operation in progress, which is not
      before the end of any transaction whose header was written. */
  ghost predicate CountsNext(states: seq<Storage.State>, acts: seq<Storage.Action>, batches: seq<Batch>,
                             hist: seq<Batch>, k: nat, b: Batch)
    requires k < |acts| == |batches| < |states| && k < |hist|
  {
    if StorageProof.EndsTransaction(states, acts, k) then b == Then(hist[k], batches[k])
    else if acts[k].Crash? then exists j: nat :: GoesBack(states, acts, k, j) && b == hist[j]
    else b == hist[k]
  }

  /** hist[k] are the operations that count at moment k. */
  ghost predicate Counts(states: seq<Storage.State>, acts: seq<Storage.Action>, batches: seq<Batch>, hist: seq<Batch>) {
    && 0 < |hist| <= |acts| + 1 && |acts| == |batches| < |states| && hist[0] == Nothing
    && forall k, l {:trigger hist[k], hist[l]} :: 0 <= k && l == k + 1 < |hist| ==>
                                                    CountsNext(states, acts, batches, hist, k, hist[l])
  }

  lemma OneMoreCounts(states: seq<Storage.State>, acts: seq<Storage.Action>, batches: seq<Batch>, hist: seq<Batch>,
                      b: Batch)
    requires Counts(states, acts, batches, hist) && |hist| <= |acts|
    requires CountsNext(states, acts, batches, hist, |hist| - 1, b)
    ensures Counts(states, acts, batches, hist + [b])
  {
    var hist' := hist + [b];
    forall k, l | 0 <= k && l == k + 1 < |hist'|
      ensures CountsNext(states, acts, batches, hist', k, hist'[l])
    {
      if l < |hist| {
        assert hist'[k] == hist[k] && hist'[l] == hist[l];
      }
      assert CountsNext(states, acts, batches, hist, k, hist'[l]);
      StillCounts(states, acts, batches, hist, b, k, hist'[l]);
    }
  }

  lemma StillCounts(states: seq<Storage.State>, acts: seq<Storage.Action>, batches: seq<Batch>, hist: seq<Batch>,
                    b: Batch, k: nat, next: Batch)
    requires k < |acts| == |batches| < |states| && k < |hist| && CountsNext(states, acts, batches, hist, k, next)
    ensures CountsNext(states, acts, batches, hist + [b], k, next)
  {
    assert (hist + [b])[k] == hist[k];
    if !StorageProof.EndsTransaction(states, acts, k) && acts[k].Crash? {
      var j: nat :| GoesBack(states, acts, k, j) && next == hist[j];
      assert (hist + [b])[j] == hist[j];
    }
  }

  /** The disk holds the files that the operations in b lead to. */
  ghost predicate HoldsAfter(sb: Superblock, disk: seq<Block>, files: seq<seq<byte>>, b: Batch) {
    exists files' :: Leads(files, b, files') && HoldsFiles(sb, disk, files')
  }

  lemma SameHoldsAfter(sb: Superblock, disk: seq<Block>, files: seq<seq<byte>>, b: Batch, start: nat, disk': seq<Block>)
    requires HoldsAfter(sb, disk, files, b) && LogBelow(sb, start) && SameHomes(disk', disk, start)
    ensures HoldsAfter(sb, disk', files, b)
  {
    var files' :| Leads(files, b, files') && HoldsFiles(sb, disk, files');
    SameFiles(sb, disk, files', start, disk');
  }

  lemma BatchDone(sb: Superblock, disk: seq<Block>, files: seq<seq<byte>>, a: Batch, disk': seq<Block>, b: Batch)
    requires HoldsAfter(sb, disk, files, a) && Does(sb, disk, disk', b)
    ensures HoldsAfter(sb, disk', files, Then(a, b))
  {
    var files1 :| Leads(files, a, files1) && HoldsFiles(sb, disk, files1);
    var files2 :| Leads(files1, b, files2) && HoldsFiles(sb, disk', files2);
    AfterThen(files, a, b);
  }

  /** What is known of the operations that count up to moment k. */
  ghost predicate Explains(sb: Superblock, states: seq<Storage.State>, files: seq<seq<byte>>, hist: seq<Batch>, j: nat)
    requires j < |states| && j < |hist|
  {
    HoldsAfter(sb, states[LastQuiet(states, j)].contents, files, hist[j])
  }

  ghost predicate AllExplained(sb: Superblock, states: seq<Storage.State>, files: seq<seq<byte>>, hist: seq<Batch>,
                               k: nat)
    requires k < |states| && k < |hist|
  {
    forall j: nat {:trigger Explains(sb, states, files, hist, j)} :: j <= k ==> Explains(sb, states, files, hist, j)
  }

  lemma OneMoreExplained(sb: Superblock, states: seq<Storage.State>, files: seq<seq<byte>>, hist: seq<Batch>, b: Batch)
    requires 0 < |hist| < |states| && AllExplained(sb, states, files, hist, |hist| - 1)
    requires HoldsAfter(sb, states[LastQuiet(states, |hist|)].contents, files, b)
    ensures AllExplained(sb, states, files, hist + [b], |hist|)
  {
    forall j: nat | j <= |hist|
      ensures Explains(sb, states, files, hist + [b], j)
    {
      if j < |hist| {
        assert Explains(sb, states, files, hist, j);
      }
    }
  }

  lemma CrashCounts(sb: Superblock, d: Disk, start: nat, states: seq<Storage.State>, acts: seq<Storage.Action>,
                    files: seq<seq<byte>>, k: nat, crashes: seq<nat>, hist: seq<Batch>) returns (j: nat)
    requires StorageProof.IsRun(d, start, states, acts) && k < |states| && LogBelow(sb, start) && k < |hist|
    requires AllExplained(sb, states, files, hist, k)
    ensures GoodDisk(states[k].disk, start) && GoesBack(states, acts, k, j)
    ensures HoldsAfter(sb, Recovered(AfterCrashes(states[k].disk, start, crashes), start), files, hist[j])
  {
    j := StorageProof.ContentsAreCrashSafe(d, start, states, acts, k, crashes);
    var r := Recovered(AfterCrashes(states[k].disk, start, crashes), start);
    assert Explains(sb, states, files, hist, j);
    SameHoldsAfter(sb, states[j].contents, files, hist[j], start, r);
  }

  /** The operations that count after step k. */
  lemma NextCounts(sb: Superblock, d: Disk, start: nat, states: seq<Storage.State>, acts: seq<Storage.Action>,
                   files: seq<seq<byte>>, batches: seq<Batch>, k: nat, hist: seq<Batch>)
    returns (b: Batch)
    requires StorageProof.IsRun(d, start, states, acts) && k < |acts| && LogBelow(sb, start)
    requires DoesFiles(sb, states, acts, batches) && |hist| == k + 1
    requires AllExplained(sb, states, files, hist, k)
    ensures CountsNext(states, acts, batches, hist, k, b)
    ensures HoldsAfter(sb, states[LastQuiet(states, k + 1)].contents, files, b)
  {
    assert Explains(sb, states, files, hist, k);
    b := hist[k];
    if StorageProof.EndsTransaction(states, acts, k) {
      b := Then(hist[k], batches[k]);
      BatchDone(sb, states[LastQuiet(states, k)].contents, files, hist[k], states[k + 1].contents, batches[k]);
    } else if acts[k].Crash? {
      StorageProof.CrashStep(d, start, states, acts, k);
      var j := CrashCounts(sb, d, start, states, acts, files, k, acts[k].crashes, hist);
      b := hist[j];
    } else if StorageProof.IsQuiet(states[k + 1]) {
      StorageProof.QuietStep(d, start, states, acts, k);
      SameHoldsAfter(sb, states[k].contents, files, b, start, states[k + 1].contents);
    }
  }

  /** Every quiet moment of a run holds the files that the operations counting then lead to. */
  lemma {:induction false} FilesFollow(sb: Superblock, d: Disk, start: nat, states: seq<Storage.State>,
                                       acts: seq<Storage.Action>,
                                       files: seq<seq<byte>>, batches: seq<Batch>, k: nat)
    returns (hist: seq<Batch>)
    requires StorageProof.IsRun(d, start, states, acts) && k < |states| && LogBelow(sb, start)
    requires HoldsFiles(sb, Recovered(d, start), files) && DoesFiles(sb, states, acts, batches)
    ensures |hist| == k + 1 && Counts(states, acts, batches, hist)
    ensures AllExplained(sb, states, files, hist, k)
  {
    if k == 0 {
      StorageProof.MountedIsFine(d, start, states[0]);
      hist := [Nothing];
      assert Leads(files, hist[0], files);
    } else {
      hist := FilesFollow(sb, d, start, states, acts, files, batches, k - 1);
      var b := NextCounts(sb, d, start, states, acts, files, batches, k - 1, hist);
      OneMoreCounts(states, acts, batches, hist, b);
      OneMoreExplained(sb, states, files, hist, b);
      hist := hist + [b];
    }
  }

  /** Crash safety of files: the disk holds files at first, and each transaction is a batch of
      file operations. Wherever the run is cut, after any crashes before, and however often
      recovery is then interrupted, the disk holds a sound file system, with the files that the
      operations counting at some moment j lead to. No operation was in progress at j, and no
      transaction whose header was written ended after it. */
  lemma FilesSurviveCrashes(sb: Superblock, d: Disk, start: nat, states: seq<Storage.State>, acts: seq<Storage.Action>,
                            files: seq<seq<byte>>, batches: seq<Batch>, k: nat, crashes: seq<nat>)
    returns (hist: seq<Batch>, j: nat)
    requires StorageProof.IsRun(d, start, states, acts) && k < |states| && LogBelow(sb, start)
    requires HoldsFiles(sb, Recovered(d, start), files) && DoesFiles(sb, states, acts, batches)
    ensures GoodDisk(states[k].disk, start) && |hist| == k + 1 && Counts(states, acts, batches, hist)
    ensures GoesBack(states, acts, k, j)
    ensures HoldsAfter(sb, Recovered(AfterCrashes(states[k].disk, start, crashes), start), files, hist[j])
  {
    hist := FilesFollow(sb, d, start, states, acts, files, batches, k);
    j := CrashCounts(sb, d, start, states, acts, files, k, crashes, hist);
  }
}
