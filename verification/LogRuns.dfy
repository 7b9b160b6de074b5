/** Any calls of begin_op, log_write and end_op, one after another, from initlog on: what the
    log keeps between calls, told from the calls and their outcomes alone. */
module LogRuns {
  import opened Blocks
  import opened Log
  import opened Params
  import opened RedoLog

  /** Edit: the caller of log_write changes the buffer beforehand. */
  datatype Call = BeginOp | Edit(n: u32, v: Block) | LogWrite(n: u32) | EndOp

  datatype Outcome = Admitted | Refused | Changed | Wrote(w: LogWriteResult) | Left(e: EndOpResult)

  // ---------- from the calls and their outcomes alone ----------

  /** The operations admitted and not ended. */
  ghost function InProgress(outs: seq<Outcome>, k: nat): int
    requires k <= |outs|
  {
    if k == 0 then 0 else InProgress(outs, k - 1) + Counts(outs[k - 1])
  }

  function Counts(o: Outcome): int {
    if o.Admitted? then 1 else if o.Left? then -1 else 0
  }

  /** Call k was an end_op that committed. */
  ghost predicate Commits(outs: seq<Outcome>, k: nat)
    requires k < |outs|
  {
    outs[k] == Left(Ended) && InProgress(outs, k + 1) == 0
  }

  /** The blocks passed to log_write since the last commit, each where it first was. */
  ghost function Recorded(calls: seq<Call>, outs: seq<Outcome>, k: nat): seq<u32>
    requires k <= |outs| <= |calls|
  {
    if k == 0 || Commits(outs, k - 1) then []
    else if calls[k - 1].LogWrite? && outs[k - 1] == Wrote(Logged)
    then Absorb(Recorded(calls, outs, k - 1), calls[k - 1].n)
    else Recorded(calls, outs, k - 1)
  }

  /** What bread shows: the last edit of block b, or else what recovery left. */
  ghost function Shown(d: Disk, calls: seq<Call>, k: nat, b: nat): Block
    requires k <= |calls| && b < |d|
  {
    if k == 0 then d[b]
    else if calls[k - 1].Edit? && calls[k - 1].n == b then calls[k - 1].v
    else Shown(d, calls, k - 1, b)
  }

  /** What is on the disk: what was shown at the last commit that had the block recorded. */
  ghost function OnDisk(d: Disk, calls: seq<Call>, outs: seq<Outcome>, k: nat, b: nat): Block
    requires k <= |outs| <= |calls| && b < |d|
  {
    if k == 0 then d[b]
    else if Commits(outs, k - 1) && b in Recorded(calls, outs, k - 1) then Shown(d, calls, k - 1, b)
    else OnDisk(d, calls, outs, k - 1, b)
  }

  /** Outcome o is the right one with the blocks lh recorded and n operations in progress. */
  ghost predicate Right(lh: seq<u32>, n: int, c: Call, o: Outcome) {
    match c
    case BeginOp => o == if |lh| + (n + 1) * MAXOPBLOCKS <= LOGBLOCKS then Admitted else Refused
    case Edit(_, _) => o == Changed
    case LogWrite(_) =>
      o == Wrote(if |lh| >= LOGBLOCKS then TooBig else if n < 1 then OutsideTransaction else Logged)
    case EndOp => o == Left(Ended) || (o == Left(Stopped) && n == 1)
  }

  ghost predicate AllRight(calls: seq<Call>, outs: seq<Outcome>)
    requires |outs| <= |calls|
  {
    forall k: nat {:trigger outs[k]} :: k < |outs| ==>
      Right(Recorded(calls, outs, k), InProgress(outs, k), calls[k], outs[k])
  }

  // ---------- growing by one call ----------

  /** What is said of the first k calls does not depend on later ones. */
  lemma {:induction false} SameStart(d: Disk, calls: seq<Call>, outs: seq<Outcome>, o: Outcome, k: nat, b: nat)
    requires k <= |outs| < |calls| && b < |d|
    ensures InProgress(outs + [o], k) == InProgress(outs, k)
    ensures Recorded(calls, outs + [o], k) == Recorded(calls, outs, k)
    ensures OnDisk(d, calls, outs + [o], k, b) == OnDisk(d, calls, outs, k, b)
  {
    if k > 0 {
      SameStart(d, calls, outs, o, k - 1, b);
      assert (outs + [o])[k - 1] == outs[k - 1];
    }
  }

  lemma StillRight(d: Disk, calls: seq<Call>, outs: seq<Outcome>, o: Outcome)
    requires |outs| < |calls| && |d| > 0 && AllRight(calls, outs)
    requires Right(Recorded(calls, outs, |outs|), InProgress(outs, |outs|), calls[|outs|], o)
    ensures AllRight(calls, outs + [o])
  {
    forall k: nat | k <= |outs|
      ensures Right(Recorded(calls, outs + [o], k), InProgress(outs + [o], k), calls[k], (outs + [o])[k])
    {
      RightAt(d, calls, outs, o, k);
    }
  }

  lemma RightAt(d: Disk, calls: seq<Call>, outs: seq<Outcome>, o: Outcome, k: nat)
    requires k <= |outs| < |calls| && |d| > 0 && AllRight(calls, outs)
    requires Right(Recorded(calls, outs, |outs|), InProgress(outs, |outs|), calls[|outs|], o)
    ensures Right(Recorded(calls, outs + [o], k), InProgress(outs + [o], k), calls[k], (outs + [o])[k])
  {
    SameStart(d, calls, outs, o, k, 0);
    if k < |outs| {
      assert (outs + [o])[k] == outs[k] && Right(Recorded(calls, outs, k), InProgress(outs, k), calls[k], outs[k]);
    } else {
      assert (outs + [o])[k] == o;
    }
  }

  /** Between calls. d is the disk that recovery left. */
  ghost predicate Between(log: Log, d: Disk, calls: seq<Call>, outs: seq<Outcome>)
    requires |outs| <= |calls|
    reads log
  {
    && log.Valid() && !log.committing && log.pinned == log.lh && |log.disk| == |d| && Word(log.disk[log.start], 0) == 0
    && log.outstanding == InProgress(outs, |outs|) && log.lh == Recorded(calls, outs, |outs|)
    && forall b: nat {:trigger log.disk[b]} {:trigger log.cached[b]} :: b < |d| && !InLog(log.start, b) ==>
         && log.cached[b] == Shown(d, calls, |outs|, b)
         && log.disk[b] == OnDisk(d, calls, outs, |outs|, b)
  }

  /** One call more. */
  lemma OneMore(d: Disk, calls: seq<Call>, outs: seq<Outcome>, o: Outcome)
    requires |outs| < |calls|
    ensures InProgress(outs + [o], |outs| + 1) == InProgress(outs, |outs|) + Counts(o)
    ensures var c, lh := calls[|outs|], Recorded(calls, outs, |outs|);
            var commits := o == Left(Ended) && InProgress(outs, |outs|) == 1;
            && Recorded(calls, outs + [o], |outs| + 1) ==
               (if commits then [] else if c.LogWrite? && o == Wrote(Logged) then Absorb(lh, c.n) else lh)
            && forall b: nat {:trigger OnDisk(d, calls, outs + [o], |outs| + 1, b)} :: b < |d| ==>
                 OnDisk(d, calls, outs + [o], |outs| + 1, b) ==
                 if commits && b in lh then Shown(d, calls, |outs|, b) else OnDisk(d, calls, outs, |outs|, b)
  {
    SameStart([ZeroBlock()], calls, outs, o, |outs|, 0);
    forall b: nat | b < |d|
      ensures OnDisk(d, calls, outs + [o], |outs|, b) == OnDisk(d, calls, outs, |outs|, b)
    {
      SameStart(d, calls, outs, o, |outs|, b);
    }
  }

  method StepBegin(log: Log, calls: seq<Call>, outs: seq<Outcome>, ghost d: Disk) returns (o: Outcome)
    requires |outs| < |calls| && calls[|outs|].BeginOp? && Between(log, d, calls, outs)
    modifies log
    ensures Right(Recorded(calls, outs, |outs|), InProgress(outs, |outs|), calls[|outs|], o)
    ensures Between(log, d, calls, outs + [o])
  {
    var ok := log.TryBeginOp();
    o := if ok then Admitted else Refused;
    OneMore(d, calls, outs, o);
  }

  method StepEdit(log: Log, calls: seq<Call>, outs: seq<Outcome>, ghost d: Disk) returns (o: Outcome)
    requires |outs| < |calls| && calls[|outs|].Edit? && Between(log, d, calls, outs)
    requires Proper(calls[|outs|], log.start, |d|)
    modifies log
    ensures o == Changed && Between(log, d, calls, outs + [o])
  {
    log.Edit(calls[|outs|].n, calls[|outs|].v);
    o := Changed;
    OneMore(d, calls, outs, o);
  }

  method StepLogWrite(log: Log, calls: seq<Call>, outs: seq<Outcome>, ghost d: Disk) returns (o: Outcome)
    requires |outs| < |calls| && calls[|outs|].LogWrite? && Between(log, d, calls, outs)
    requires Proper(calls[|outs|], log.start, |d|)
    modifies log
    ensures Right(Recorded(calls, outs, |outs|), InProgress(outs, |outs|), calls[|outs|], o)
    ensures Between(log, d, calls, outs + [o])
  {
    var w := log.LogWrite(calls[|outs|].n);
    o := Wrote(w);
    OneMore(d, calls, outs, o);
  }

  method StepEnd(log: Log, calls: seq<Call>, outs: seq<Outcome>, ghost d: Disk) returns (o: Outcome)
    requires |outs| < |calls| && calls[|outs|].EndOp? && Between(log, d, calls, outs)
    modifies log
    ensures Right(Recorded(calls, outs, |outs|), InProgress(outs, |outs|), calls[|outs|], o)
    ensures if o == Left(Stopped) then log.life == 0 else Between(log, d, calls, outs + [o])
  {
    var e := log.EndOp();
    o := Left(e);
    OneMore(d, calls, outs, o);
  }

  method Step(log: Log, calls: seq<Call>, outs: seq<Outcome>, ghost d: Disk) returns (o: Outcome)
    requires |outs| < |calls| && Between(log, d, calls, outs) && Proper(calls[|outs|], log.start, |d|)
    modifies log
    ensures Right(Recorded(calls, outs, |outs|), InProgress(outs, |outs|), calls[|outs|], o)
    ensures if o == Left(Stopped) then log.life == 0 else Between(log, d, calls, outs + [o])
  {
    match calls[|outs|]
    case BeginOp => o := StepBegin(log, calls, outs, d);
    case Edit(_, _) => o := StepEdit(log, calls, outs, d);
    case LogWrite(_) => o := StepLogWrite(log, calls, outs, d);
    case EndOp => o := StepEnd(log, calls, outs, d);
  }

  /** What log_write demands of its caller: a block on the disk and outside the log. */
  predicate Proper(c: Call, start: nat, size: nat) {
    c.LogWrite? || c.Edit? ==> c.n < size && !InLog(start, c.n)
  }

  /** After any calls, none of which met a crash: no commit is under way, what is pinned is what
      is recorded, the operations in progress are those admitted and not ended, the cache
      shows the last edits, and the disk has those of the blocks committed. Every outcome is
      the right one, so that nobody ever meets the panic "log.committing". */
  method Run(start: nat, disk: Disk, life: nat, calls: seq<Call>)
    returns (log: Log, outs: seq<Outcome>, stopped: bool)
    requires GoodDisk(disk, start) && forall c {:trigger c in calls} :: c in calls ==> Proper(c, start, |disk|)
    ensures |outs| <= |calls| && AllRight(calls, outs) && Left(WasCommitting) !in outs
    ensures stopped ==> log.life == 0
    ensures !stopped ==> |outs| == |calls| && Between(log, Recovered(disk, start), calls, outs)
  {
    outs, stopped := [], false;
    log := new Log(start, disk, life);
    var ok := log.RecoverFromLog();
    if !ok {
      return log, [], true;
    }
    ghost var d := Recovered(disk, start);
    while |outs| < |calls|
      invariant fresh(log) && log.start == start && |outs| <= |calls| && !stopped
      invariant AllRight(calls, outs) && Left(WasCommitting) !in outs && Between(log, d, calls, outs)
    {
      assert calls[|outs|] in calls;
      var o := Step(log, calls, outs, d);
      StillRight(d, calls, outs, o);
      outs := outs + [o];
      if o == Left(Stopped) {
        return log, outs, true;
      }
    }
  }
}
