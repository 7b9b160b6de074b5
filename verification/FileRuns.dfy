/** Runs of file operations, against flat files: each file is a byte sequence, a write
    splices bytes in, a read returns a slice. */
module FileRuns {
  import opened Blocks
  import opened FileContent
  import opened FileOps
  import opened Files
  import opened FileSystem

  datatype Op = Write(n: nat, off: u32, src: seq<byte>) | Read(n: nat, off: u32, len: u32) | Truncate(n: nat)

  datatype Outcome = NoSuchFile | Wrote(tot: int) | Got(bytes: seq<byte>) | Truncated

  /** Writes that writei refuses. */
  predicate Refused(file: seq<byte>, off: u32, src: seq<byte>) {
    off > |file| || off + |src| > MAXFILE * BSIZE
  }

  /** The outcome of an operation is one that flat files allow. A write may stop early. */
  predicate Allowed(files: seq<seq<byte>>, op: Op, out: Outcome) {
    if op.n >= |files| then out == NoSuchFile else
      match op
      case Write(n, off, src) =>
        out.Wrote? && if Refused(files[n], off, src) then out.tot == -1 else 0 <= out.tot <= |src|
      case Read(n, off, len) =>
        out == Got(if off > |files[n]| || off + len >= 0x1_0000_0000 then []
                   else files[n][off..Min(off + len, |files[n]|)])
      case Truncate(_) => out == Truncated
  }

  /** The flat files afterwards. */
  function Apply(files: seq<seq<byte>>, op: Op, out: Outcome): (r: seq<seq<byte>>)
    ensures |r| == |files|
    ensures forall m :: 0 <= m < |files| && m != op.n ==> r[m] == files[m]
  {
    if op.n >= |files| || !Allowed(files, op, out) then files else
      match op
      case Write(n, off, src) => if out.tot == -1 then files else files[n := Splice(files[n], off, src[..out.tot])]
      case Read(_, _, _) => files
      case Truncate(n) => files[n := []]
  }

  /** The flat files after a run with these outcomes. */
  function Replay(files: seq<seq<byte>>, ops: seq<Op>, outs: seq<Outcome>): seq<seq<byte>>
    requires |outs| == |ops|
  {
    if |ops| == 0 then files else
      var last := |ops| - 1;
      Apply(Replay(files, ops[..last], outs[..last]), ops[last], outs[last])
  }

  /** Each outcome is one that flat files allow, given the operations before it. */
  predicate FlatRun(files: seq<seq<byte>>, ops: seq<Op>, outs: seq<Outcome>) {
    |outs| == |ops| &&
    forall i :: 0 <= i < |ops| ==> Allowed(Replay(files, ops[..i], outs[..i]), ops[i], outs[i])
  }

  lemma FlatRunStep(files: seq<seq<byte>>, ops: seq<Op>, outs: seq<Outcome>, op: Op, out: Outcome)
    requires FlatRun(files, ops, outs) && Allowed(Replay(files, ops, outs), op, out)
    ensures FlatRun(files, ops + [op], outs + [out])
    ensures Replay(files, ops + [op], outs + [out]) == Apply(Replay(files, ops, outs), op, out)
  {
    var ops', outs' := ops + [op], outs + [out];
    assert ops'[..|ops|] == ops && outs'[..|ops|] == outs;
    forall i | 0 <= i < |ops'|
      ensures Allowed(Replay(files, ops'[..i], outs'[..i]), ops'[i], outs'[i])
    {
      if i < |ops| {
        assert ops'[..i] == ops[..i] && outs'[..i] == outs[..i];
        assert Allowed(Replay(files, ops[..i], outs[..i]), ops[i], outs[i]);
      }
    }
  }

  ghost function FlatFiles(v: View): (files: seq<seq<byte>>)
    ensures |files| == |v.inodes| && forall n :: 0 <= n < |files| ==> files[n] == Content(v.disk, v.inodes, n)
  {
    seq(|v.inodes|, n requires 0 <= n < |v.inodes| => Content(v.disk, v.inodes, n))
  }

  lemma OneFileChanged(v: View, v': View, n: nat)
    requires n < |v.inodes| && OthersUntouched(v, v', n)
    ensures FlatFiles(v') == FlatFiles(v)[n := Content(v'.disk, v'.inodes, n)]
  {
    forall m: nat | m < |v.inodes| && m != n
      ensures FlatFiles(v')[m] == FlatFiles(v)[m]
    {
      assert v'.inodes[m] == v.inodes[m];
    }
  }

  /** One operation does to the files what it does to flat files. */
  method Step(fs: Fs, op: Op) returns (out: Outcome, panicked: bool)
    requires FsOk(fs.sb, fs.Now()) && (op.Write? ==> |op.src| < 0x1_0000_0000)
    modifies fs
    ensures !panicked && FsOk(fs.sb, fs.Now())
    ensures Allowed(old(FlatFiles(fs.Now())), op, out) &&
            FlatFiles(fs.Now()) == Apply(old(FlatFiles(fs.Now())), op, out)
  {
    panicked := false;
    ghost var v := fs.Now();
    if op.n >= |fs.inodes| {
      return NoSuchFile, false;
    }
    match op
    case Write(n, off, src) =>
      var tot;
      tot, panicked := fs.Writei(n, off, src);
      out := Wrote(tot);
      if tot != -1 {
        OneFileChanged(v, fs.Now(), n);
      }
    case Read(n, off, len) =>
      var bytes;
      bytes, panicked := fs.Readi(n, off, len);
      out := Got(bytes);
    case Truncate(n) =>
      panicked := fs.Itrunc(n);
      out := Truncated;
      OneFileChanged(v, fs.Now(), n);
  }

  /** Any sequence of operations on any files behaves as on flat files, and no panic is reached. */
  method Run(fs: Fs, ops: seq<Op>) returns (outs: seq<Outcome>, panicked: bool)
    requires FsOk(fs.sb, fs.Now())
    requires forall i :: 0 <= i < |ops| && ops[i].Write? ==> |ops[i].src| < 0x1_0000_0000
    modifies fs
    ensures !panicked && FsOk(fs.sb, fs.Now())
    ensures FlatRun(old(FlatFiles(fs.Now())), ops, outs) &&
            FlatFiles(fs.Now()) == Replay(old(FlatFiles(fs.Now())), ops, outs)
  {
    outs, panicked := [], false;
    ghost var files := FlatFiles(fs.Now());
    for i := 0 to |ops|
      invariant |outs| == i && !panicked && FsOk(fs.sb, fs.Now())
      invariant FlatRun(files, ops[..i], outs) && FlatFiles(fs.Now()) == Replay(files, ops[..i], outs)
    {
      var out;
      out, panicked := Step(fs, ops[i]);
      FlatRunStep(files, ops[..i], outs, ops[i], out);
      assert ops[..i] + [ops[i]] == ops[..i + 1];
      outs := outs + [out];
    }
    assert ops[..|ops|] == ops;
  }
}
