/** Runs of the disk driver and the device, step by step in any interleaving, refine a queue of
    requests that knows no descriptors and no rings. */
module VirtioRuns {
  import opened Seals
  import opened VirtioDisk
  import opened Virtqueue

  datatype Step = Ask(req: Request) | Take | Finish(buf: nat) | Interrupt | Look(buf: nat)

  datatype Outcome =
    | Refused
    | Full
    | Nothing
    | Asked
    | Took(req: Request)
    | Reported
    | Woke(buf: nat)
    | Asleep
    | Returned

  /** The buffers with a requester, the requests that the device has not read, the buffers that it
      works on, those that it has reported, and those whose requester may go on. */
  datatype Queue = Queue(live: set<nat>, waiting: seq<Request>, working: set<nat>, finished: seq<nat>, woken: set<nat>)

  const EMPTY := Queue({}, [], {}, [], {})

  /** The device reads the requests in the order they were made, and reports them in any order; the
      handler wakes the requesters in the order of the reports. */
  function Next(q: Queue, s: Step): Queue {
    match s
    case Ask(req) =>
      if req.buf in q.live || |q.live| > 1 then q
      else q.(live := q.live + {req.buf}, waiting := q.waiting + [req])
    case Take =>
      if q.waiting == [] then q
      else q.(waiting := q.waiting[1..], working := q.working + {q.waiting[0].buf})
    case Finish(buf) =>
      if buf !in q.working then q
      else q.(working := q.working - {buf}, finished := q.finished + [buf])
    case Interrupt =>
      if q.finished == [] then q
      else q.(finished := q.finished[1..], woken := q.woken + {q.finished[0]})
    case Look(buf) =>
      if buf !in q.live || buf !in q.woken then q
      else q.(live := q.live - {buf}, woken := q.woken - {buf})
  }

  function Answer(q: Queue, s: Step): Outcome {
    match s
    case Ask(req) => if req.buf in q.live then Refused else if |q.live| > 1 then Full else Asked
    case Take => if q.waiting == [] then Nothing else Took(q.waiting[0])
    case Finish(buf) => if buf !in q.working then Refused else Reported
    case Interrupt => if q.finished == [] then Nothing else Woke(q.finished[0])
    case Look(buf) => if buf !in q.live then Refused else if buf !in q.woken then Asleep else Returned
  }

  function After(steps: seq<Step>): Queue {
    if steps == [] then EMPTY else Next(After(steps[..|steps| - 1]), steps[|steps| - 1])
  }

  lemma AfterNext(steps: seq<Step>, i: nat)
    requires i < |steps|
    ensures After(steps[..i + 1]) == Next(After(steps[..i]), steps[i])
  {
    assert steps[..i + 1][..i] == steps[..i];
  }

  // ---------- nobody is forgotten ----------

  ghost predicate Waits(q: Queue, b: nat) {
    exists i :: 0 <= i < |q.waiting| && q.waiting[i].buf == b
  }

  /** In how many places b is. */
  ghost function Places(q: Queue, b: nat): nat {
    (if Waits(q, b) then 1 else 0) + (if b in q.working then 1 else 0) + (if b in q.finished then 1 else 0)
    + if b in q.woken then 1 else 0
  }

  /** Every live buffer is in one place, once, and no other buffer is anywhere. */
  ghost predicate InOnePlace(q: Queue) {
    && (forall b {:trigger Places(q, b)} :: Places(q, b) == if b in q.live then 1 else 0)
    && (forall i, j {:trigger q.waiting[i], q.waiting[j]} :: 0 <= i < j < |q.waiting| ==>
          q.waiting[i].buf != q.waiting[j].buf)
    && Distinct(q.finished)
  }

  lemma WaitsThen(q: Queue, s: Step, b: nat)
    requires InOnePlace(q)
    ensures s.Ask? && Next(q, s) != q ==> (Waits(Next(q, s), b) <==> Waits(q, b) || b == s.req.buf)
    ensures s.Take? && q.waiting != [] ==> (Waits(Next(q, s), b) <==> Waits(q, b) && b != q.waiting[0].buf)
    ensures s.Interrupt? && q.finished != [] ==>
              (b in Next(q, s).finished <==> b in q.finished && b != q.finished[0])
  {
    var q' := Next(q, s);
    if s.Ask? && q' != q {
      if Waits(q, b) {
        var i :| 0 <= i < |q.waiting| && q.waiting[i].buf == b;
        assert q'.waiting[i].buf == b;
      }
      if b == s.req.buf {
        assert q'.waiting[|q.waiting|].buf == b;
      }
    } else if s.Take? && q.waiting != [] {
      if Waits(q, b) && b != q.waiting[0].buf {
        var i :| 0 <= i < |q.waiting| && q.waiting[i].buf == b;
        assert q'.waiting[i - 1].buf == b;
      }
      if Waits(q', b) {
        var i :| 0 <= i < |q'.waiting| && q'.waiting[i].buf == b;
        assert q.waiting[i + 1].buf == b;
      }
    } else if s.Interrupt? && q.finished != [] {
      assert q.finished == [q.finished[0]] + q'.finished;
    }
  }

  lemma StaysInOnePlace(q: Queue, s: Step)
    requires InOnePlace(q)
    ensures InOnePlace(Next(q, s))
  {
    var q' := Next(q, s);
    if s.Ask? {
      assert Places(q, s.req.buf) == if s.req.buf in q.live then 1 else 0;
    } else if s.Finish? {
      assert Places(q, s.buf) == if s.buf in q.live then 1 else 0;
    }
    forall b
      ensures Places(q', b) == if b in q'.live then 1 else 0
    {
      assert Places(q, b) == if b in q.live then 1 else 0;
      WaitsThen(q, s, b);
    }
  }

  lemma {:induction false} EveryRequestIsInOnePlace(steps: seq<Step>)
    ensures InOnePlace(After(steps)) && |After(steps).live| <= 2
  {
    if steps == [] {
      NobodyAnywhere();
    } else {
      var q, s := After(steps[..|steps| - 1]), steps[|steps| - 1];
      EveryRequestIsInOnePlace(steps[..|steps| - 1]);
      StaysInOnePlace(q, s);
      AtMostTwo(q, s);
    }
  }

  lemma NobodyAnywhere()
    ensures InOnePlace(EMPTY)
  {
  }

  lemma AtMostTwo(q: Queue, s: Step)
    requires |q.live| <= 2
    ensures |Next(q, s).live| <= 2
  {
    if s.Look? {
      assert q.live - {s.buf} <= q.live;
      SmallerSet(q.live - {s.buf}, q.live);
    }
  }

  lemma SmallerSet(a: set<nat>, b: set<nat>)
    requires a <= b
    ensures |a| <= |b|
  {
    assert b == a + (b - a);
  }

  /** As long as there is a request, the device, the handler or its requester has something to do. */
  lemma SomebodyGoesOn(steps: seq<Step>) returns (s: Step)
    requires After(steps).live != {}
    ensures var a := Answer(After(steps), s); a.Took? || a.Reported? || a.Woke? || a.Returned?
  {
    var q := After(steps);
    EveryRequestIsInOnePlace(steps);
    var b :| b in q.live;
    assert Places(q, b) == 1;
    s := if q.waiting != [] then Take else if b in q.working then Finish(b)
         else if q.finished != [] then Interrupt else Look(b);
  }

  // ---------- refinement ----------

  /** pending: the requests that wait in virtio_disk_rw, by buffer. */
  ghost predicate Waiting(pending: map<nat, nat>, g: Book) {
    && |pending| == |g.chains|
    && (forall b {:trigger pending[b]} :: b in pending ==>
          pending[b] in g.chains && pending[b] in g.stage && g.chains[pending[b]].req.buf == b)
    && (forall h {:trigger g.chains[h]} :: h in g.chains ==>
          h in g.stage && g.chains[h].req.buf in pending && pending[g.chains[h].req.buf] == h)
  }

  /** The chains behind a ring are the requests reqs. */
  ghost predicate Carry(chains: map<nat, Chain>, heads: seq<nat>, reqs: seq<Request>) {
    && |heads| == |reqs|
    && forall i {:trigger heads[i]} {:trigger reqs[i]} :: 0 <= i < |heads| ==>
         heads[i] in chains && chains[heads[i]].req == reqs[i]
  }

  /** The chains behind a ring are those of the buffers bufs. */
  ghost predicate Name(chains: map<nat, Chain>, heads: seq<nat>, bufs: seq<nat>) {
    && |heads| == |bufs|
    && forall i {:trigger heads[i]} {:trigger bufs[i]} :: 0 <= i < |heads| ==>
         heads[i] in chains && chains[heads[i]].req.buf == bufs[i]
  }

  ghost predicate Shows(pending: map<nat, nat>, g: Book, q: Queue) {
    && Waiting(pending, g) && q.live == pending.Keys
    && Carry(g.chains, g.toTake, q.waiting) && Name(g.chains, g.toSee, q.finished)
    && q.working <= q.live && q.woken <= q.live
    && (forall h {:trigger g.chains[h]} :: h in g.chains && h in g.stage ==>
          && (g.stage[h].Taken? <==> g.chains[h].req.buf in q.working)
          && (g.stage[h].Seen? <==> g.chains[h].req.buf in q.woken))
  }

  /** What the rings and the device hold, by stage. */
  lemma PlaceOf(d: Disk, g: Book, h: nat)
    requires Ok(d, g) && h in g.chains && h in g.stage
    ensures h in d.inDevice <==> g.stage[h].Taken?
    ensures g.stage[h].Seen? ==> h !in g.toTake && h !in g.toSee
  {
    assert Open(true);
  }

  lemma HeadStages(d: Disk, g: Book)
    requires Ok(d, g)
    ensures g.toTake != [] ==> g.toTake[0] in g.stage && g.stage[g.toTake[0]].Offered?
    ensures g.toSee != [] ==> g.toSee[0] in g.stage && g.stage[g.toSee[0]].Finished?
    ensures g.chains == map[] ==> g.toTake == [] && g.toSee == []
  {
    assert Open(true);
    if g.toTake != [] {
      assert g.toTake[0] in g.toTake;
    }
    if g.toSee != [] {
      assert g.toSee[0] in g.toSee;
    }
  }

  lemma AskWaiting(pending: map<nat, nat>, g: Book, buf: nat, h: nat, c: Chain, g': Book)
    requires Waiting(pending, g) && buf !in pending && h !in g.chains && c.req.buf == buf
    requires g'.chains == g.chains[h := c] && g'.stage == g.stage[h := Offered]
    ensures Waiting(pending[buf := h], g')
  {
    var pending' := pending[buf := h];
    forall k | k in g'.chains
      ensures k in g'.stage && g'.chains[k].req.buf in pending' && pending'[g'.chains[k].req.buf] == k
    {
      if k != h {
        assert g'.chains[k] == g.chains[k];
      }
    }
    forall b | b in pending'
      ensures pending'[b] in g'.chains && pending'[b] in g'.stage && g'.chains[pending'[b]].req.buf == b
    {
      if b != buf {
        assert pending'[b] == pending[b] != h;
      }
    }
  }

  lemma AskCarried(chains: map<nat, Chain>, toTake: seq<nat>, waiting: seq<Request>, toSee: seq<nat>,
                   finished: seq<nat>, h: nat, c: Chain)
    requires Carry(chains, toTake, waiting) && Name(chains, toSee, finished) && h !in chains
    ensures Carry(chains[h := c], toTake + [h], waiting + [c.req]) && Name(chains[h := c], toSee, finished)
  {
  }

  lemma AskShows(pending: map<nat, nat>, g: Book, q: Queue, req: Request, h: nat, g': Book)
    requires Shows(pending, g, q) && req.buf !in pending && |q.live| <= 1 && h !in g.chains
    requires h in g'.chains && g'.chains[h].req == req && g'.chains == g.chains[h := g'.chains[h]]
    requires g'.stage == g.stage[h := Offered] && g'.toTake == g.toTake + [h] && g'.toSee == g.toSee
    ensures Shows(pending[req.buf := h], g', Next(q, Ask(req)))
  {
    AskWaiting(pending, g, req.buf, h, g'.chains[h], g');
    AskCarried(g.chains, g.toTake, q.waiting, g.toSee, q.finished, h, g'.chains[h]);
    assert req.buf !in q.working && req.buf !in q.woken;
  }

  lemma TakeShows(pending: map<nat, nat>, g: Book, q: Queue, g': Book)
    requires Shows(pending, g, q) && g.toTake != []
    requires g.toTake[0] in g.stage && g.stage[g.toTake[0]].Offered?
    requires g' == g.(toTake := g.toTake[1..], stage := g.stage[g.toTake[0] := Taken])
    ensures Shows(pending, g', Next(q, Take))
  {
    var h := g.toTake[0];
    assert g.chains[h].req == q.waiting[0];
    forall k | k in g'.chains
      ensures k == h || g.chains[k].req.buf != g.chains[h].req.buf
    {
      assert pending[g.chains[k].req.buf] == k;
    }
  }

  lemma FinishShows(pending: map<nat, nat>, g: Book, q: Queue, buf: nat, g': Book)
    requires Shows(pending, g, q) && buf in pending && g.stage[pending[buf]].Taken?
    requires g' == g.(toSee := g.toSee + [pending[buf]], stage := g.stage[pending[buf] := Finished])
    ensures Shows(pending, g', Next(q, Finish(buf)))
  {
    var h := pending[buf];
    assert g.chains[h].req.buf == buf;
    forall k | k in g'.chains
      ensures k == h || g.chains[k].req.buf != buf
    {
      assert pending[g.chains[k].req.buf] == k;
    }
  }

  lemma WakeShows(pending: map<nat, nat>, g: Book, q: Queue, g': Book)
    requires Shows(pending, g, q) && g.toSee != []
    requires g.toSee[0] in g.stage && g.stage[g.toSee[0]].Finished?
    requires g' == g.(toSee := g.toSee[1..], stage := g.stage[g.toSee[0] := Seen])
    ensures Shows(pending, g', Next(q, Interrupt))
  {
    var h := g.toSee[0];
    assert g.chains[h].req.buf == q.finished[0];
    forall k | k in g'.chains
      ensures k == h || g.chains[k].req.buf != g.chains[h].req.buf
    {
      assert pending[g.chains[k].req.buf] == k;
    }
  }

  lemma LookShows(pending: map<nat, nat>, g: Book, q: Queue, buf: nat, g': Book)
    requires Shows(pending, g, q) && buf in pending && g.stage[pending[buf]].Seen?
    requires pending[buf] !in g.toTake && pending[buf] !in g.toSee
    requires g'.chains == g.chains - {pending[buf]} && g'.stage == g.stage - {pending[buf]}
    requires g'.toTake == g.toTake && g'.toSee == g.toSee
    ensures Shows(pending - {buf}, g', Next(q, Look(buf)))
  {
    var h, pending' := pending[buf], pending - {buf};
    assert g.chains[h].req.buf == buf;
    forall k | k in g'.chains
      ensures k in g'.stage && g'.chains[k].req.buf in pending' && pending'[g'.chains[k].req.buf] == k
    {
      assert pending[g.chains[k].req.buf] == k;
    }
    forall b | b in pending'
      ensures pending'[b] in g'.chains && pending'[b] in g'.stage && g'.chains[pending'[b]].req.buf == b
    {
      assert pending[b] != h;
    }
  }

  /** One step answers as the queue does. */
  method Do(driver: Driver, pending: map<nat, nat>, s: Step, ghost q: Queue)
    returns (out: Outcome, pending': map<nat, nat>, panicked: bool)
    requires driver.Valid() && Shows(pending, driver.book, q)
    modifies driver
    ensures driver.Valid() && Shows(pending', driver.book, Next(q, s)) && !panicked && out == Answer(q, s)
  {
    out, pending', panicked := Refused, pending, false;
    ghost var g := driver.book;
    HeadStages(driver.disk, g);
    match s {
      case Ask(req) =>
        if req.buf !in pending {
          var ok, head := driver.Submit(req);
          out := if ok then Asked else Full;
          if ok {
            pending' := pending[req.buf := head];
            AskShows(pending, g, q, req, head, driver.book);
          }
        }
      case Take =>
        var ok, head, req := driver.DeviceTake();
        out := if ok then Took(req) else Nothing;
        if ok {
          TakeShows(pending, g, q, driver.book);
        }
      case Finish(buf) =>
        if buf in pending {
          PlaceOf(driver.disk, g, pending[buf]);
          if pending[buf] in driver.disk.inDevice {
            driver.DeviceFinish(pending[buf]);
            out := Reported;
            FinishShows(pending, g, q, buf, driver.book);
          }
        }
      case Interrupt =>
        var ok, buf := driver.IntrStep();
        out := if ok then Woke(buf) else Nothing;
        if ok {
          WakeShows(pending, g, q, driver.book);
        }
      case Look(buf) =>
        if buf in pending {
          PlaceOf(driver.disk, g, pending[buf]);
          var done, ok := driver.Complete(pending[buf]);
          panicked := !ok;
          out := if done then Returned else Asleep;
          if done {
            pending' := pending - {buf};
            LookShows(pending, g, q, buf, driver.book);
          }
        }
    }
  }

  /** Requesters, device and interrupt handler in any interleaving, for as long as a buffer has
      one requester at a time: every step answers as the queue of requests does, and free_desc
      does not panic. */
  method Run(avail: seq<nat>, used: seq<nat>, idx: nat, usedIdx: nat, steps: seq<Step>)
    returns (outs: seq<Outcome>, panicked: bool)
    requires |avail| == |used| == NUM && idx < IDXMOD && usedIdx < IDXMOD
    ensures !panicked && |outs| == |steps|
    ensures forall i {:trigger outs[i]} :: 0 <= i < |steps| ==> outs[i] == Answer(After(steps[..i]), steps[i])
  {
    var driver := new Driver(avail, used, idx, usedIdx);
    HeadStages(driver.disk, driver.book);
    var pending: map<nat, nat> := map[];
    outs, panicked := [], false;
    for i := 0 to |steps|
      invariant driver.Valid() && Shows(pending, driver.book, After(steps[..i])) && !panicked && |outs| == i
      invariant forall j {:trigger outs[j]} :: 0 <= j < i ==> outs[j] == Answer(After(steps[..j]), steps[j])
    {
      var out;
      AfterNext(steps, i);
      out, pending, panicked := Do(driver, pending, steps[i], After(steps[..i]));
      outs := outs + [out];
    }
  }
}
