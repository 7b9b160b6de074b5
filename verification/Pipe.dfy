/** The pipe, as critical sections of readers and writers that interleave at their sleep
    points. The counters nread and nwrite are 32 bits wide and wrap around. */
module Pipe {

  const PIPESIZE: nat := 512
  const WRAP: nat := 0x1_0000_0000

  type byte = x: int | 0 <= x < 256

  datatype WriteOutcome = Wrote(n: nat) | WriteFailed | WriterSleeps(i: nat)

  datatype ReadOutcome = ReadDone(bytes: seq<byte>) | ReadFailed | ReaderSleeps

  /** The counters against the numbers of bytes written and read since the beginning. */
  predicate CountersOk(nread: nat, nwrite: nat, taken: nat, total: nat) {
    && taken <= total <= taken + PIPESIZE
    && nread == taken % WRAP && nwrite == total % WRAP
  }

  /** The tests for an empty and a full pipe are right, also after a wrap. */
  lemma TestsAreRight(nread: nat, nwrite: nat, taken: nat, total: nat)
    requires CountersOk(nread, nwrite, taken, total)
    ensures nread == nwrite <==> taken == total
    ensures nwrite == (nread + PIPESIZE) % WRAP <==> total == taken + PIPESIZE
  {
    assert total % WRAP == (taken % WRAP + (total - taken)) % WRAP by {
      ModAdd(taken, total - taken);
    }
  }

  lemma ModAdd(a: nat, b: nat)
    ensures (a + b) % WRAP == (a % WRAP + b) % WRAP
  {
    assert a == a / WRAP * WRAP + a % WRAP;
    assert a + b == a / WRAP * WRAP + (a % WRAP + b);
    ModShift(a % WRAP + b, a / WRAP);
  }

  lemma {:induction false} ModShift(x: nat, k: nat)
    ensures (k * WRAP + x) % WRAP == x % WRAP
  {
    if k > 0 {
      ModShift(x, k - 1);
      assert k * WRAP + x == ((k - 1) * WRAP + x) + WRAP;
    }
  }

  /** PIPESIZE divides 2^32, so a wrapped counter still names the right slot. */
  lemma SlotSurvivesWrap(n: nat)
    ensures n % WRAP % PIPESIZE == n % PIPESIZE
  {
    var r := n % WRAP;
    assert n == n / WRAP * WRAP + r;
    assert r == r / PIPESIZE * PIPESIZE + r % PIPESIZE;
    Remainder(n, n / WRAP * 8388608 + r / PIPESIZE, r % PIPESIZE);
  }

  lemma Remainder(n: nat, q: nat, r: nat)
    requires n == q * PIPESIZE + r && r < PIPESIZE
    ensures n % PIPESIZE == r
  {
  }

  function Slot(k: nat): (s: nat)
    ensures s < PIPESIZE
  {
    k % PIPESIZE
  }

  /** The pending bytes, in their slots. */
  ghost predicate Pending(data: seq<byte>, written: seq<byte>, taken: nat) {
    && |data| == PIPESIZE && taken <= |written| <= taken + PIPESIZE
    && forall k {:trigger written[k]} :: taken <= k < |written| ==> data[Slot(k)] == written[k]
  }

  lemma SlotsApart(a: nat, b: nat)
    requires a < b < a + PIPESIZE
    ensures Slot(a) != Slot(b)
  {
  }

  lemma OneMorePending(data: seq<byte>, written: seq<byte>, taken: nat, ch: byte)
    requires Pending(data, written, taken) && |written| < taken + PIPESIZE
    ensures Pending(data[Slot(|written|) := ch], written + [ch], taken)
  {
    var w := written + [ch];
    forall k | taken <= k < |w|
      ensures data[Slot(|written|) := ch][Slot(k)] == w[k]
    {
      if k < |written| {
        SlotsApart(k, |written|);
        assert w[k] == written[k];
      }
    }
  }

  function Min(a: int, b: int): (m: int)
    ensures m <= a && m <= b && (m == a || m == b)
  {
    if a <= b then a else b
  }

  // ---------- where a section of pipewrite ends ----------

  /** The byte before which a writer that begins at byte i finds the read end closed or itself
      killed. */
  function FailsAt(i: nat, readopen: bool, killedAt: nat): (f: nat)
    ensures f >= i
  {
    if !readopen || killedAt < i then i else killedAt
  }

  /** The byte at which the section ends: the end of the data, a failure, a full pipe or a byte
      that cannot be copied, whichever comes first. */
  function EndsAt(i: nat, n: nat, room: nat, readopen: bool, killedAt: nat, badAt: nat): (e: nat)
    requires i <= n
    ensures i <= e <= n
  {
    var e := Min(Min(n, FailsAt(i, readopen, killedAt)), i + room);
    if i <= badAt then Min(e, badAt) else e
  }

  /** The writer is killed after it has stored a byte and before it has stored the last one. */
  predicate KilledMidway(i: nat, n: nat, room: nat, readopen: bool, killedAt: nat, badAt: nat) {
    readopen && i < killedAt < n && killedAt <= i + room && !(i <= badAt < killedAt)
  }

  /** A section that has come to byte i for a reason to end there, and had none before, ends there. */
  lemma EndIs(i0: nat, n: nat, room: nat, readopen: bool, killedAt: nat, badAt: nat, i: nat)
    requires i0 <= i <= n && i <= i0 + room && (i > i0 ==> readopen && i <= killedAt && !(i0 <= badAt < i))
    requires i == n || !readopen || i >= killedAt || i == i0 + room || i == badAt
    ensures EndsAt(i0, n, room, readopen, killedAt, badAt) == i
  {
  }

  lemma MidwayIs(i0: nat, n: nat, room: nat, readopen: bool, killedAt: nat, badAt: nat)
    requires i0 <= n
    ensures var e := EndsAt(i0, n, room, readopen, killedAt, badAt);
            KilledMidway(i0, n, room, readopen, killedAt, badAt) <==>
              i0 < e < n && e == FailsAt(i0, readopen, killedAt)
  {
  }

  class Pipe {
    const data: array<byte>
    var nread: nat
    var nwrite: nat
    var readopen: bool
    var writeopen: bool
    var sleepR: set<nat>             // processes asleep on &pi->nread
    var sleepW: set<nat>             // processes asleep on &pi->nwrite
    ghost var written: seq<byte>     // all bytes ever stored
    ghost var taken: nat             // how many of them have been read

    ghost predicate Fifo()
      reads this, data
    {
      data.Length == PIPESIZE && CountersOk(nread, nwrite, taken, |written|) && Pending(data[..], written, taken)
    }

    /** When the lock is free: the contents, and a reason for each sleeping writer. */
    ghost predicate Valid()
      reads this, data
    {
      Fifo() && (sleepW != {} ==> |written| == taken + PIPESIZE && readopen)
    }

    /** A reason for each sleeping reader. */
    ghost predicate ReadersWaitRightly()
      reads this
    {
      sleepR != {} ==> taken == |written| && writeopen
    }

    ghost function Now(): Moment
      reads this
    {
      Moment(written, taken, readopen, writeopen, sleepR, sleepW)
    }

    constructor ()
      ensures Valid() && ReadersWaitRightly() && fresh(data)
      ensures written == [] && taken == 0 && readopen && writeopen && sleepR == {} && sleepW == {}
    {
      data := new byte[PIPESIZE](i => 0);
      nread, nwrite, readopen, writeopen, sleepR, sleepW := 0, 0, true, true, {}, {};
      written, taken := [], 0;
    }

    /** pi->data[pi->nwrite++ % PIPESIZE] = ch */
    method Put(ch: byte)
      requires Fifo() && |written| < taken + PIPESIZE
      modifies `nwrite, `written, data
      ensures Fifo() && written == old(written) + [ch]
    {
      OneMorePending(data[..], written, taken, ch);
      SlotSurvivesWrap(|written|);
      data[nwrite % PIPESIZE] := ch;
      ModAdd(|written|, 1);
      nwrite := (nwrite + 1) % WRAP;
      written := written + [ch];
    }

    /** A section of pipewrite, from byte i0 of src on: until it returns or goes to sleep.
        From byte killedAt on the process has been killed, and the copyin of byte badAt fails.
        The last clause says exactly when it leaves a reader asleep for no reason: a writer that
        is killed midway returns without waking anybody. */
    method Write(id: nat, i0: nat, src: seq<byte>, killedAt: nat, badAt: nat) returns (r: WriteOutcome)
      requires Valid() && i0 <= |src|
      modifies this, data
      ensures Valid() && nread == old(nread) && taken == old(taken)
      ensures readopen == old(readopen) && writeopen == old(writeopen)
      ensures var n, room, fail := |src|, old(taken + PIPESIZE - |written|), FailsAt(i0, readopen, killedAt);
              var e := EndsAt(i0, n, room, readopen, killedAt, badAt);
              && written == old(written) + src[i0..e]
              && r == (if e == n then Wrote(n) else if e == fail then WriteFailed
                       else if e == i0 + room then WriterSleeps(e) else Wrote(e))
      ensures sleepR == if r.WriteFailed? then old(sleepR) else {}
      ensures sleepW == if r.WriterSleeps? then old(sleepW) + {id} else old(sleepW)
      ensures old(ReadersWaitRightly()) ==>
                (ReadersWaitRightly() <==>
                   old(sleepR) == {} ||
                   !KilledMidway(i0, |src|, old(taken + PIPESIZE - |written|), readopen, killedAt, badAt))
    {
      ghost var room := taken + PIPESIZE - |written|;
      MidwayIs(i0, |src|, room, readopen, killedAt, badAt);
      var i;
      i, r := StoreBytes(i0, src, killedAt, badAt);
      EndIs(i0, |src|, room, readopen, killedAt, badAt, i);
      if !r.WriteFailed? {
        sleepR := {};
      }
      if r.WriterSleeps? {
        sleepW := sleepW + {id};
      }
    }

    /** pipewrite's loop, up to the byte i at which the section ends. */
    method StoreBytes(i0: nat, src: seq<byte>, killedAt: nat, badAt: nat) returns (i: nat, r: WriteOutcome)
      requires Fifo() && i0 <= |src|
      modifies `nwrite, `written, data
      ensures Fifo() && i0 <= i <= |src| && written == old(written) + src[i0..i]
      ensures i > i0 ==> readopen && i <= killedAt && !(i0 <= badAt < i)
      ensures if i == |src| then r == Wrote(i)
              else if !readopen || i >= killedAt then r == WriteFailed
              else if |written| == taken + PIPESIZE then r == WriterSleeps(i)
              else r == Wrote(i) && i == badAt
    {
      i := i0;
      while i < |src|
        invariant i0 <= i <= |src| && Fifo() && written == old(written) + src[i0..i]
        invariant i > i0 ==> readopen && i <= killedAt && !(i0 <= badAt < i)
      {
        if !readopen || i >= killedAt {
          return i, WriteFailed;
        }
        TestsAreRight(nread, nwrite, taken, |written|);
        if nwrite == (nread + PIPESIZE) % WRAP {
          return i, WriterSleeps(i);
        }
        if i == badAt {
          break;
        }
        Put(src[i]);
        i := i + 1;
      }
      r := Wrote(i);
    }

    /** A section of piperead: until it returns or goes to sleep. The bytes it hands out are the
        next ones in order. The copyout of byte badAt fails, and consumes nothing. */
    method Read(id: nat, n: nat, killed: bool, badAt: nat) returns (r: ReadOutcome)
      requires Valid()
      modifies `nread, `taken, `sleepR, `sleepW
      ensures Valid() && old(taken) <= taken
      ensures r.ReadDone? ==> && |r.bytes| == Min(n, Min(badAt, |written| - old(taken)))
                              && taken == old(taken) + |r.bytes| <= |written|
                              && r.bytes == written[old(taken)..taken]
      ensures !r.ReadDone? ==> taken == old(taken)
      ensures r.ReaderSleeps? <==> old(taken) == |written| && writeopen && !killed
      ensures r.ReadFailed? <==> if old(taken) == |written| then writeopen && killed else badAt == 0 < n
      ensures sleepR == if r.ReaderSleeps? then old(sleepR) + {id} else old(sleepR)
      ensures sleepW == if old(taken) == |written| && writeopen then old(sleepW) else {}
      ensures old(ReadersWaitRightly()) ==> ReadersWaitRightly()
    {
      TestsAreRight(nread, nwrite, taken, |written|);
      if nread == nwrite && writeopen {
        if killed {
          return ReadFailed;
        }
        sleepR := sleepR + {id};
        return ReaderSleeps;
      }
      var bytes, failed := TakeBytes(n, badAt);
      sleepW := {};
      r := if failed then ReadFailed else ReadDone(bytes);
    }

    /** The loop of piperead. */
    method TakeBytes(n: nat, badAt: nat) returns (bytes: seq<byte>, failed: bool)
      requires Fifo()
      modifies `nread, `taken
      ensures Fifo() && |bytes| == Min(n, Min(badAt, |written| - old(taken)))
      ensures taken == old(taken) + |bytes| <= |written| && bytes == written[old(taken)..taken]
      ensures failed <==> badAt == 0 < n && old(taken) < |written|
    {
      bytes, failed := [], false;
      while |bytes| < n
        invariant |bytes| <= n && |bytes| <= badAt && Fifo() && !failed
        invariant taken == old(taken) + |bytes| && bytes == written[old(taken)..taken]
      {
        TestsAreRight(nread, nwrite, taken, |written|);
        if nread == nwrite {
          break;
        }
        SlotSurvivesWrap(taken);
        var ch := data[nread % PIPESIZE];
        assert ch == written[taken];
        if |bytes| == badAt {
          failed := bytes == [];
          break;
        }
        ModAdd(taken, 1);
        nread := (nread + 1) % WRAP;
        taken := taken + 1;
        bytes := bytes + [ch];
      }
    }

    /** pipeclose. The pipe is freed once both ends are closed. */
    method Close(writable: bool) returns (freed: bool)
      requires Valid()
      modifies `readopen, `writeopen, `sleepR, `sleepW
      ensures Valid() && (old(ReadersWaitRightly()) ==> ReadersWaitRightly())
      ensures writable ==> !writeopen && sleepR == {} && readopen == old(readopen) && sleepW == old(sleepW)
      ensures !writable ==> !readopen && sleepW == {} && writeopen == old(writeopen) && sleepR == old(sleepR)
      ensures freed <==> !readopen && !writeopen
    {
      if writable {
        writeopen, sleepR := false, {};
      } else {
        readopen, sleepW := false, {};
      }
      freed := !readopen && !writeopen;
    }

    /** kill wakes a process, wherever it sleeps. */
    method Kill(id: nat)
      requires Valid()
      modifies `sleepR, `sleepW
      ensures Valid() && (old(ReadersWaitRightly()) ==> ReadersWaitRightly())
      ensures sleepR == old(sleepR) - {id} && sleepW == old(sleepW) - {id}
    {
      sleepR, sleepW := sleepR - {id}, sleepW - {id};
    }
  }

  // ---------- runs ----------

  /** What a pipe amounts to while its lock is free: all bytes ever written, how many of them have
      been taken, and who sleeps. */
  datatype Moment = Moment(written: seq<byte>, taken: nat, readopen: bool, writeopen: bool, sleepR: set<nat>,
                           sleepW: set<nat>) {
    function Pending(): int { |written| - taken }

    predicate SleepersWaitRightly() {
      && (sleepW != {} ==> Pending() == PIPESIZE && readopen)
      && (sleepR != {} ==> Pending() == 0 && writeopen)
    }
  }

  datatype Section =
    | Writing(id: nat, i: nat, src: seq<byte>, killedAt: nat, badAt: nat)
    | Reading(id: nat, n: nat, killed: bool, badAt: nat)
    | Closing(writable: bool)
    | Killing(id: nat)

  /** The section is a writer's that is killed midway, while a reader is asleep. */
  predicate Mishap(m: Moment, s: Section) {
    && s.Writing? && m.sleepR != {} && m.Pending() <= PIPESIZE
    && KilledMidway(s.i, |s.src|, PIPESIZE - m.Pending(), m.readopen, s.killedAt, s.badAt)
  }

  /** No mishap in the sections before the k-th. */
  ghost predicate NoMishap(moments: seq<Moment>, sections: seq<Section>, k: nat) {
    forall j {:trigger moments[j]} :: 0 <= j < k && j < |sections| && j < |moments| ==> !Mishap(moments[j], sections[j])
  }

  /** At each moment sleepers have reason to sleep, and this is first broken exactly by a mishap. */
  ghost predicate Explained(moments: seq<Moment>, sections: seq<Section>) {
    && (forall k: nat {:trigger NoMishap(moments, sections, k)} :: k < |moments| && NoMishap(moments, sections, k) ==>
          moments[k].SleepersWaitRightly())
    && (forall k: nat, l: nat {:trigger moments[k], moments[l]} ::
          && k < |sections| && l == k + 1 < |moments|
          && NoMishap(moments, sections, k) && Mishap(moments[k], sections[k]) ==>
            !moments[l].SleepersWaitRightly())
  }

  lemma ExplainedNext(moments: seq<Moment>, sections: seq<Section>, m: Moment)
    requires 0 < |moments| <= |sections| && Explained(moments, sections)
    requires var last := |moments| - 1;
             moments[last].SleepersWaitRightly() ==>
               (m.SleepersWaitRightly() <==> !Mishap(moments[last], sections[last]))
    ensures Explained(moments + [m], sections)
  {
    var moments', last := moments + [m], |moments| - 1;
    forall k: nat | k < |moments'|
      ensures NoMishap(moments', sections, k) <==> NoMishap(moments, sections, k)
    {
      assert forall j :: 0 <= j < k ==> moments'[j] == moments[j];
    }
    if NoMishap(moments, sections, last + 1) {
      assert NoMishap(moments, sections, last) && !Mishap(moments[last], sections[last]);
    }
    forall k: nat, l: nat | k < |sections| && l == k + 1 < |moments'| && NoMishap(moments', sections, k) &&
                            Mishap(moments'[k], sections[k])
      ensures !moments'[l].SleepersWaitRightly()
    {
      assert NoMishap(moments, sections, k) && moments'[k] == moments[k];
      if l < |moments| {
        assert moments'[l] == moments[l];
      }
    }
  }

  /** What a section makes of a pipe, as a queue of bounded length. */
  function Then(m: Moment, s: Section): Moment
    requires 0 <= m.Pending() <= PIPESIZE
  {
    match s
    case Writing(id, i, src, killedAt, badAt) =>
      if i > |src| then m else
        var n, room, fail := |src|, PIPESIZE - m.Pending(), FailsAt(i, m.readopen, killedAt);
        var e := EndsAt(i, n, room, m.readopen, killedAt, badAt);
        m.(written := m.written + src[i..e],
           sleepR := if e != n && e == fail then m.sleepR else {},
           sleepW := if e != n && e != fail && e == i + room then m.sleepW + {id} else m.sleepW)
    case Reading(id, n, killed, badAt) =>
      if m.Pending() == 0 && m.writeopen then (if killed then m else m.(sleepR := m.sleepR + {id}))
      else m.(taken := m.taken + Min(n, Min(badAt, m.Pending())), sleepW := {})
    case Closing(writable) =>
      if writable then m.(writeopen := false, sleepR := {}) else m.(readopen := false, sleepW := {})
    case Killing(id) =>
      m.(sleepR := m.sleepR - {id}, sleepW := m.sleepW - {id})
  }

  method Step(pipe: Pipe, s: Section) returns (got: seq<byte>)
    requires pipe.Valid()
    modifies pipe, pipe.data
    ensures pipe.Valid() && 0 <= old(pipe.Now()).Pending() <= PIPESIZE
    ensures pipe.Now() == Then(old(pipe.Now()), s)
    ensures pipe.taken == old(pipe.taken) + |got| <= |pipe.written|
    ensures got == pipe.written[old(pipe.taken)..pipe.taken]
    ensures old(pipe.Now()).SleepersWaitRightly() ==>
              (pipe.Now().SleepersWaitRightly() <==> !Mishap(old(pipe.Now()), s))
  {
    got := [];
    match s {
      case Writing(id, i, src, killedAt, badAt) =>
        if i <= |src| {
          var r := pipe.Write(id, i, src, killedAt, badAt);
        }
      case Reading(id, n, killed, badAt) =>
        var r := pipe.Read(id, n, killed, badAt);
        if r.ReadDone? {
          got := r.bytes;
        }
      case Closing(writable) =>
        var freed := pipe.Close(writable);
      case Killing(id) =>
        pipe.Kill(id);
    }
  }

  /** Each moment follows from the one before by its section. */
  ghost predicate Follow(moments: seq<Moment>, sections: seq<Section>) {
    forall k: nat {:trigger FollowsAt(moments, sections, k)} :: FollowsAt(moments, sections, k)
  }

  ghost predicate FollowsAt(moments: seq<Moment>, sections: seq<Section>, k: nat) {
    k < |sections| && k + 1 < |moments| ==>
      0 <= moments[k].Pending() <= PIPESIZE && moments[k + 1] == Then(moments[k], sections[k])
  }

  lemma FollowNext(moments: seq<Moment>, sections: seq<Section>, m: Moment)
    requires 0 < |moments| <= |sections| && Follow(moments, sections)
    requires var last := |moments| - 1;
             0 <= moments[last].Pending() <= PIPESIZE && m == Then(moments[last], sections[last])
    ensures Follow(moments + [m], sections)
  {
    forall k: nat
      ensures FollowsAt(moments + [m], sections, k)
    {
      assert FollowsAt(moments, sections, k);
    }
  }

  /** Any readers and writers in any order of their sections: the pipe behaves as a queue that
      holds at most PIPESIZE bytes, and what has been read is a prefix of what has been written.
      At each moment sleepers have reason to sleep, and this is first broken exactly by a mishap. */
  method Run(pipe: Pipe, sections: seq<Section>) returns (got: seq<byte>, ghost moments: seq<Moment>)
    requires pipe.Valid() && pipe.ReadersWaitRightly() && pipe.taken == 0
    modifies pipe, pipe.data
    ensures pipe.Valid() && got == pipe.written[..pipe.taken] && |pipe.written| <= |got| + PIPESIZE
    ensures |moments| == |sections| + 1 && moments[0] == old(pipe.Now()) && moments[|sections|] == pipe.Now()
    ensures Follow(moments, sections) && Explained(moments, sections)
  {
    got, moments := [], [pipe.Now()];
    for k := 0 to |sections|
      invariant pipe.Valid() && pipe.taken == |got| <= |pipe.written| && got == pipe.written[..pipe.taken]
      invariant |moments| == k + 1 && moments[0] == old(pipe.Now()) && moments[k] == pipe.Now()
      invariant Follow(moments, sections) && Explained(moments, sections)
    {
      var bytes := Step(pipe, sections[k]);
      got := got + bytes;
      ExplainedNext(moments, sections, pipe.Now());
      FollowNext(moments, sections, pipe.Now());
      moments := moments + [pipe.Now()];
    }
  }

  /** A mishap: reader 1 falls asleep, and writer 2 is killed after the first of its two bytes.
      The reader sleeps on, with a byte in the pipe. */
  method StuckReader() returns (pipe: Pipe, r: ReadOutcome, w: WriteOutcome)
    ensures r == ReaderSleeps && w == WriteFailed
    ensures 1 in pipe.sleepR && pipe.written == [7] && pipe.taken == 0 && !pipe.ReadersWaitRightly()
  {
    pipe := new Pipe();
    r := pipe.Read(1, 10, false, 100);
    w := pipe.Write(2, 0, [7, 8], 1, 100);
  }
}
