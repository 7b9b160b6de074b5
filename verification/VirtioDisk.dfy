/** The disk driver and the device as steps that interleave at will: a requester submits a
    chain, the device takes offered chains and finishes them in any order, the interrupt
    handler consumes the used ring, the requester frees its chain. */
module VirtioDisk {
  import opened Seals
  import opened Virtqueue

  /** Where a chain is: in the available ring, in the device, in the used ring, or seen by the
      interrupt handler. */
  datatype Stage = Offered | Taken | Finished | Seen

  ghost predicate StagesOk(chains: map<nat, Chain>, stage: map<nat, Stage>, toTake: seq<nat>, inDevice: set<nat>,
                           toSee: seq<nat>) {
    && (forall h {:trigger stage[h]} {:trigger chains[h]} :: h in chains <==> h in stage)
    && Distinct(toTake) && Distinct(toSee)
    && (forall h {:trigger h in toTake} :: h in toTake <==> h in stage && stage[h].Offered?)
    && (forall h {:trigger h in inDevice} :: h in inDevice <==> h in stage && stage[h].Taken?)
    && (forall h {:trigger h in toSee} :: h in toSee <==> h in stage && stage[h].Finished?)
  }

  /** info and ops describe the chains, and b->disk is set until the handler has seen them. */
  ghost predicate RequestsOk(info: seq<nat>, ops: seq<Request>, busy: set<nat>, chains: map<nat, Chain>,
                             stage: map<nat, Stage>) {
    && |info| == |ops| == NUM
    && (forall h {:trigger chains[h]} :: h in chains && h in stage && h < NUM ==>
          info[h] == chains[h].req.buf && ops[h] == chains[h].req && (chains[h].req.buf in busy <==> !stage[h].Seen?))
    && (forall h, g {:trigger chains[h], chains[g]} :: h in chains && g in chains && h != g ==>
          chains[h].req.buf != chains[g].req.buf)
  }

  lemma OfferStages(chains: map<nat, Chain>, stage: map<nat, Stage>, toTake: seq<nat>, inDevice: set<nat>,
                    toSee: seq<nat>, h: nat, c: Chain)
    requires StagesOk(chains, stage, toTake, inDevice, toSee) && h !in chains
    ensures StagesOk(chains[h := c], stage[h := Offered], toTake + [h], inDevice, toSee)
  {
    assert h !in stage && h !in toTake && h !in toSee && h !in inDevice;
    var chains', stage', toTake' := chains[h := c], stage[h := Offered], toTake + [h];
    forall g
      ensures g in toTake' <==> g in stage' && stage'[g].Offered?
    {
      assert g in toTake' <==> g in toTake || g == h;
    }
    forall g
      ensures g in chains' <==> g in stage'
    {
      assert g in chains <==> g in stage by {
        if g in chains {
          assert chains[g] == chains[g];
        }
        if g in stage {
          assert stage[g] == stage[g];
        }
      }
    }
  }

  lemma TakeStages(chains: map<nat, Chain>, stage: map<nat, Stage>, toTake: seq<nat>, inDevice: set<nat>,
                   toSee: seq<nat>)
    requires StagesOk(chains, stage, toTake, inDevice, toSee) && toTake != []
    ensures var h := toTake[0];
            && h in chains && h in stage && stage[h].Offered?
            && StagesOk(chains, stage[h := Taken], toTake[1..], inDevice + {h}, toSee)
  {
    var h, rest := toTake[0], toTake[1..];
    assert h in toTake && stage[h].Offered?;
    forall g
      ensures g in toTake <==> g in rest || g == h
    {
      assert toTake == [h] + rest;
    }
    assert h !in rest;
  }

  lemma FinishStages(chains: map<nat, Chain>, stage: map<nat, Stage>, toTake: seq<nat>, inDevice: set<nat>,
                     toSee: seq<nat>, h: nat)
    requires StagesOk(chains, stage, toTake, inDevice, toSee) && h in inDevice
    ensures h in chains && StagesOk(chains, stage[h := Finished], toTake, inDevice - {h}, toSee + [h])
  {
    assert stage[h].Taken? && h !in toSee && h !in toTake;
    var toSee' := toSee + [h];
    forall g
      ensures g in toSee' <==> g in toSee || g == h
    {
    }
  }

  lemma SeeStages(chains: map<nat, Chain>, stage: map<nat, Stage>, toTake: seq<nat>, inDevice: set<nat>,
                  toSee: seq<nat>)
    requires StagesOk(chains, stage, toTake, inDevice, toSee) && toSee != []
    ensures var h := toSee[0];
            && h in chains && h in stage && stage[h].Finished?
            && StagesOk(chains, stage[h := Seen], toTake, inDevice, toSee[1..])
  {
    var h, rest := toSee[0], toSee[1..];
    assert h in toSee && stage[h].Finished?;
    forall g
      ensures g in toSee <==> g in rest || g == h
    {
      assert toSee == [h] + rest;
    }
    assert h !in rest;
  }

  lemma DropStages(chains: map<nat, Chain>, stage: map<nat, Stage>, toTake: seq<nat>, inDevice: set<nat>,
                   toSee: seq<nat>, h: nat)
    requires StagesOk(chains, stage, toTake, inDevice, toSee) && h in stage && stage[h].Seen?
    ensures StagesOk(chains - {h}, stage - {h}, toTake, inDevice, toSee)
  {
    var chains', stage' := chains - {h}, stage - {h};
    forall g
      ensures g in chains' <==> g in stage'
    {
      if g in chains {
        assert chains[g] == chains[g];
      }
      if g in stage {
        assert stage[g] == stage[g];
      }
    }
  }

  /** At most two chains are outstanding, so a ring always has room. */
  lemma RoomInRings(chains: map<nat, Chain>, stage: map<nat, Stage>, toTake: seq<nat>, inDevice: set<nat>,
                    toSee: seq<nat>)
    requires StagesOk(chains, stage, toTake, inDevice, toSee)
    ensures |toTake| <= |chains| && |toSee| <= |chains|
  {
    forall h | h in toTake
      ensures h in chains.Keys
    {
      assert stage[h].Offered?;
    }
    forall h | h in toSee
      ensures h in chains.Keys
    {
      assert stage[h].Finished?;
    }
    DistinctFits(toTake, chains.Keys);
    DistinctFits(toSee, chains.Keys);
  }

  /** struct disk, the shared rings, and what the device keeps: how far it has read the
      available ring, and the chains that it works on. */
  datatype Disk = Disk(free: seq<bool>, next: seq<nat>, more: seq<bool>, ops: seq<Request>, info: seq<nat>,
                       avail: seq<nat>, availIdx: nat, used: seq<nat>, usedIdx: nat, usedSeen: nat,
                       busy: set<nat>, devIdx: nat, inDevice: set<nat>)

  /** Which chains there are and where they are. */
  datatype Book = Book(chains: map<nat, Chain>, home: seq<nat>, stage: map<nat, Stage>, toTake: seq<nat>,
                       toSee: seq<nat>)

  ghost predicate OkOpen(d: Disk, g: Book) {
    && ChainsOk(d.free, d.next, d.more, g.chains, g.home) && Count(d.free) + 3 * |g.chains| == NUM
    && RingOk(d.avail, d.devIdx, d.availIdx, g.toTake) && RingOk(d.used, d.usedSeen, d.usedIdx, g.toSee)
    && StagesOk(g.chains, g.stage, g.toTake, d.inDevice, g.toSee)
    && RequestsOk(d.info, d.ops, d.busy, g.chains, g.stage)
  }

  ghost predicate Ok(d: Disk, g: Book) {
    forall k: bool {:trigger Open(k)} :: Open(k) ==> OkOpen(d, g)
  }

  lemma Sizes(d: Disk, g: Book)
    requires Ok(d, g)
    ensures |d.free| == |d.next| == |d.more| == |g.home| == |d.ops| == |d.info| == |d.avail| == |d.used| == NUM
    ensures Count(d.free) + 3 * |g.chains| == NUM
  {
    assert Open(true);
  }

  /** All descriptors free, nothing in the rings. */
  lemma NothingYet(d: Disk, g: Book)
    requires |d.free| == |d.next| == |d.more| == |g.home| == |d.ops| == |d.info| == |d.avail| == |d.used| == NUM
    requires (forall x :: 0 <= x < NUM ==> d.free[x] && g.home[x] == NUM) && Count(d.free) == NUM
    requires d.devIdx == d.availIdx < IDXMOD && d.usedSeen == d.usedIdx < IDXMOD && d.inDevice == {}
    requires g.chains == map[] && g.stage == map[] && g.toTake == [] && g.toSee == []
    ensures Ok(d, g)
  {
  }

  /** From d and g, chain c with head h was made of free descriptors and offered. */
  ghost predicate Offers(d: Disk, g: Book, h: nat, c: Chain, d': Disk, g': Book) {
    && h < NUM && c.mid < NUM && c.last < NUM && h != c.mid && h != c.last && c.mid != c.last
    && |d.free| == |d.next| == |d.more| == |d.ops| == |d.info| == |d.avail| == |g.home| == NUM
    && d.free[h] && d.free[c.mid] && d.free[c.last]
    && d' == d.(free := d.free[h := false][c.mid := false][c.last := false],
                next := d.next[h := c.mid][c.mid := c.last][c.last := 0],
                more := d.more[h := true][c.mid := true][c.last := false],
                ops := d.ops[h := c.req], info := d.info[h := c.req.buf],
                avail := d.avail[d.availIdx % NUM := h], availIdx := (d.availIdx + 1) % IDXMOD,
                busy := d.busy + {c.req.buf})
    && g' == g.(chains := g.chains[h := c], home := g.home[h := h][c.mid := h][c.last := h],
                stage := g.stage[h := Offered], toTake := g.toTake + [h])
  }

  lemma OfferedChains(d: Disk, g: Book, h: nat, c: Chain, d': Disk, g': Book)
    requires OkOpen(d, g) && Offers(d, g, h, c, d', g')
    ensures h !in g.chains && ChainsOk(d'.free, d'.next, d'.more, g'.chains, g'.home) &&
            Count(d'.free) + 3 * |g'.chains| == NUM
  {
    ChainAdded(d.free, d.next, d.more, g.chains, g.home, h, c);
    CountThree(d.free, h, c.mid, c.last, false);
  }

  lemma OfferedRings(d: Disk, g: Book, h: nat, c: Chain, d': Disk, g': Book)
    requires OkOpen(d, g) && Offers(d, g, h, c, d', g')
    ensures RingOk(d'.avail, d'.devIdx, d'.availIdx, g'.toTake) && RingOk(d'.used, d'.usedSeen, d'.usedIdx, g'.toSee)
  {
    RoomInRings(g.chains, g.stage, g.toTake, d.inDevice, g.toSee);
    RingPush(d.avail, d.devIdx, d.availIdx, g.toTake, h);
  }

  lemma Offering(d: Disk, g: Book, h: nat, c: Chain, d': Disk, g': Book)
    requires Ok(d, g) && Offers(d, g, h, c, d', g')
    requires forall f {:trigger g.chains[f]} :: f in g.chains ==> g.chains[f].req.buf != c.req.buf
    ensures h !in g.chains && Ok(d', g')
  {
    assert Open(true);
    OfferedChains(d, g, h, c, d', g');
    OfferedRings(d, g, h, c, d', g');
    OfferStages(g.chains, g.stage, g.toTake, d.inDevice, g.toSee, h, c);
    OfferRequests(d.info, d.ops, d.busy, g.chains, g.stage, h, c);
  }

  lemma OfferRequests(info: seq<nat>, ops: seq<Request>, busy: set<nat>, chains: map<nat, Chain>,
                      stage: map<nat, Stage>, h: nat, c: Chain)
    requires RequestsOk(info, ops, busy, chains, stage) && h < NUM && h !in chains
    requires forall g {:trigger chains[g]} :: g in chains ==> chains[g].req.buf != c.req.buf
    ensures RequestsOk(info[h := c.req.buf], ops[h := c.req], busy + {c.req.buf}, chains[h := c], stage[h := Offered])
  {
  }

  /** The next entry of the available ring. */
  lemma FirstOffered(d: Disk, g: Book)
    requires Ok(d, g) && d.devIdx != d.availIdx && |d.avail| == |d.ops| == NUM
    ensures g.toTake != [] && d.avail[d.devIdx % NUM] == g.toTake[0]
    ensures var h := g.toTake[0]; h < NUM && h in g.chains && d.ops[h] == g.chains[h].req
  {
    assert Open(true);
    TakeStages(g.chains, g.stage, g.toTake, d.inDevice, g.toSee);
    RingPop(d.avail, d.devIdx, d.availIdx, g.toTake);
    var h := g.toTake[0];
    assert ChainOk(d.next, d.more, g.home, h, g.chains[h]);
  }

  lemma Taking(d: Disk, g: Book, d': Disk, g': Book)
    requires Ok(d, g) && d.devIdx != d.availIdx && |d.avail| == |d.ops| == NUM && g.toTake != []
    requires var h := g.toTake[0];
             && d' == d.(devIdx := (d.devIdx + 1) % IDXMOD, inDevice := d.inDevice + {h})
             && g' == g.(stage := g.stage[h := Taken], toTake := g.toTake[1..])
    ensures Ok(d', g')
  {
    assert Open(true);
    TakenStages(d, g);
    TakenRings(d, g);
  }

  lemma TakenRings(d: Disk, g: Book)
    requires OkOpen(d, g) && g.toTake != []
    ensures RingOk(d.avail, (d.devIdx + 1) % IDXMOD, d.availIdx, g.toTake[1..])
  {
    RingPop(d.avail, d.devIdx, d.availIdx, g.toTake);
  }

  lemma TakenStages(d: Disk, g: Book)
    requires OkOpen(d, g) && g.toTake != []
    ensures var h := g.toTake[0];
            && StagesOk(g.chains, g.stage[h := Taken], g.toTake[1..], d.inDevice + {h}, g.toSee)
            && RequestsOk(d.info, d.ops, d.busy, g.chains, g.stage[h := Taken])
  {
    TakeStages(g.chains, g.stage, g.toTake, d.inDevice, g.toSee);
    StageRequests(d.info, d.ops, d.busy, g.chains, g.stage, g.toTake[0], Taken);
  }

  lemma StageRequests(info: seq<nat>, ops: seq<Request>, busy: set<nat>, chains: map<nat, Chain>,
                      stage: map<nat, Stage>, h: nat, st: Stage)
    requires RequestsOk(info, ops, busy, chains, stage) && h in stage && !stage[h].Seen? && !st.Seen?
    ensures RequestsOk(info, ops, busy, chains, stage[h := st])
  {
  }

  lemma NoneOffered(d: Disk, g: Book)
    requires Ok(d, g) && d.devIdx == d.availIdx
    ensures g.toTake == []
  {
    assert Open(true);
    RoomInRings(g.chains, g.stage, g.toTake, d.inDevice, g.toSee);
  }

  lemma FinishedRing(d: Disk, g: Book, h: nat)
    requires Ok(d, g) && |d.used| == NUM
    ensures RingOk(d.used[d.usedIdx % NUM := h], d.usedSeen, (d.usedIdx + 1) % IDXMOD, g.toSee + [h])
  {
    assert Open(true);
    RoomInRings(g.chains, g.stage, g.toTake, d.inDevice, g.toSee);
    RingPush(d.used, d.usedSeen, d.usedIdx, g.toSee, h);
  }

  lemma Finishing(d: Disk, g: Book, h: nat, d': Disk, g': Book)
    requires Ok(d, g) && h in d.inDevice && |d.used| == NUM
    requires d' == d.(used := d.used[d.usedIdx % NUM := h], usedIdx := (d.usedIdx + 1) % IDXMOD,
                      inDevice := d.inDevice - {h})
    requires g' == g.(stage := g.stage[h := Finished], toSee := g.toSee + [h])
    ensures Ok(d', g')
  {
    assert Open(true);
    FinishStages(g.chains, g.stage, g.toTake, d.inDevice, g.toSee, h);
    FinishedRing(d, g, h);
    assert g.stage[h].Taken?;
    StageRequests(d.info, d.ops, d.busy, g.chains, g.stage, h, Finished);
  }

  /** The next entry of the used ring. */
  lemma FirstFinished(d: Disk, g: Book)
    requires Ok(d, g) && d.usedSeen != d.usedIdx && |d.used| == |d.info| == NUM
    ensures g.toSee != [] && d.used[d.usedSeen % NUM] == g.toSee[0]
    ensures var h := g.toSee[0]; h < NUM && h in g.chains && d.info[h] == g.chains[h].req.buf && d.info[h] in d.busy
  {
    assert Open(true);
    SeeStages(g.chains, g.stage, g.toTake, d.inDevice, g.toSee);
    RingPop(d.used, d.usedSeen, d.usedIdx, g.toSee);
    var h := g.toSee[0];
    assert ChainOk(d.next, d.more, g.home, h, g.chains[h]);
  }

  lemma Seeing(d: Disk, g: Book, d': Disk, g': Book)
    requires Ok(d, g) && d.usedSeen != d.usedIdx && |d.used| == |d.info| == NUM && g.toSee != [] && g.toSee[0] < NUM
    requires var h := g.toSee[0];
             && h in g.chains
             && d' == d.(busy := d.busy - {d.info[h]}, usedSeen := (d.usedSeen + 1) % IDXMOD)
             && g' == g.(stage := g.stage[h := Seen], toSee := g.toSee[1..])
    ensures Ok(d', g')
  {
    assert Open(true);
    SeenStages(d, g);
    SeenRings(d, g);
  }

  lemma SeenRings(d: Disk, g: Book)
    requires OkOpen(d, g) && g.toSee != []
    ensures RingOk(d.used, (d.usedSeen + 1) % IDXMOD, d.usedIdx, g.toSee[1..])
  {
    RingPop(d.used, d.usedSeen, d.usedIdx, g.toSee);
  }

  lemma SeenStages(d: Disk, g: Book)
    requires OkOpen(d, g) && g.toSee != [] && g.toSee[0] < NUM
    ensures var h := g.toSee[0];
            && StagesOk(g.chains, g.stage[h := Seen], g.toTake, d.inDevice, g.toSee[1..])
            && RequestsOk(d.info, d.ops, d.busy - {d.info[h]}, g.chains, g.stage[h := Seen])
  {
    SeeStages(g.chains, g.stage, g.toTake, d.inDevice, g.toSee);
    SeeRequests(d.info, d.ops, d.busy, g.chains, g.stage, g.toSee[0]);
  }

  lemma SeeRequests(info: seq<nat>, ops: seq<Request>, busy: set<nat>, chains: map<nat, Chain>, stage: map<nat, Stage>,
                    h: nat)
    requires RequestsOk(info, ops, busy, chains, stage) && h in stage && h in chains && h < NUM && !stage[h].Seen?
    ensures info[h] in busy && RequestsOk(info, ops, busy - {info[h]}, chains, stage[h := Seen])
  {
    assert chains[h].req.buf == info[h];
  }

  lemma NoneFinished(d: Disk, g: Book)
    requires Ok(d, g) && d.usedSeen == d.usedIdx
    ensures g.toSee == []
  {
    assert Open(true);
    RoomInRings(g.chains, g.stage, g.toTake, d.inDevice, g.toSee);
  }

  /** A chain that the handler has not seen still has its buffer busy. */
  lemma BusyUntilSeen(d: Disk, g: Book, h: nat)
    requires Ok(d, g) && h in g.chains && |d.info| == NUM
    ensures h < NUM && h in g.stage && (d.info[h] !in d.busy <==> g.stage[h].Seen?)
    ensures ChainsOk(d.free, d.next, d.more, g.chains, g.home)
  {
    assert Open(true);
    assert ChainOk(d.next, d.more, g.home, h, g.chains[h]);
  }

  lemma Dropping(d: Disk, g: Book, h: nat, d': Disk, g': Book)
    requires Ok(d, g) && h in g.chains && h in g.stage && g.stage[h].Seen?
    requires |d.free| == |d.next| == |d.more| == |d.info| == |g.home| == NUM
    requires var c := g.chains[h];
             && h < NUM && c.mid < NUM && c.last < NUM
             && d' == d.(free := d.free[h := true][c.mid := true][c.last := true],
                         next := d.next[h := 0][c.mid := 0][c.last := 0],
                         more := d.more[h := false][c.mid := false][c.last := false], info := d.info[h := 0])
             && g' == g.(home := g.home[h := NUM][c.mid := NUM][c.last := NUM], chains := g.chains - {h},
                         stage := g.stage - {h})
    ensures Ok(d', g')
  {
    assert Open(true);
    DropChain(d.free, d.next, d.more, g.chains, g.home, h);
    DropStages(g.chains, g.stage, g.toTake, d.inDevice, g.toSee, h);
    DropRequests(d.info, d.ops, d.busy, g.chains, g.stage, h);
  }

  lemma DropChain(free: seq<bool>, next: seq<nat>, more: seq<bool>, chains: map<nat, Chain>, home: seq<nat>, h: nat)
    requires ChainsOk(free, next, more, chains, home) && h in chains
    ensures var c := chains[h];
            && h < NUM && c.mid < NUM && c.last < NUM
            && ChainsOk(free[h := true][c.mid := true][c.last := true], next[h := 0][c.mid := 0][c.last := 0],
                        more[h := false][c.mid := false][c.last := false], chains - {h},
                        home[h := NUM][c.mid := NUM][c.last := NUM])
            && Count(free[h := true][c.mid := true][c.last := true]) == Count(free) + 3
            && |chains - {h}| == |chains| - 1
  {
    var c := chains[h];
    ChainRemoved(free, next, more, chains, home, h);
    assert ChainOk(next, more, home, h, c);
    CountThree(free, h, c.mid, c.last, true);
    assert (chains - {h}).Keys == chains.Keys - {h};
  }

  lemma DropRequests(info: seq<nat>, ops: seq<Request>, busy: set<nat>, chains: map<nat, Chain>,
                     stage: map<nat, Stage>, h: nat)
    requires RequestsOk(info, ops, busy, chains, stage) && h < NUM
    ensures RequestsOk(info[h := 0], ops, busy, chains - {h}, stage - {h})
  {
    var chains', stage' := chains - {h}, stage - {h};
    forall g | g in chains' && g in stage' && g < NUM
      ensures info[h := 0][g] == chains'[g].req.buf && ops[g] == chains'[g].req &&
              (chains'[g].req.buf in busy <==> !stage'[g].Seen?)
    {
      assert chains[g] == chains'[g];
    }
    forall g, f | g in chains' && f in chains' && g != f
      ensures chains'[g].req.buf != chains'[f].req.buf
    {
      assert chains[g].req.buf != chains[f].req.buf;
    }
  }

  /** The links of free descriptors do not matter. */
  lemma FreeLinks(d: Disk, g: Book, next: seq<nat>, more: seq<bool>)
    requires Ok(d, g) && |d.free| == |d.next| == |d.more| == |next| == |more| == NUM
    requires forall x :: 0 <= x < NUM && !d.free[x] ==> next[x] == d.next[x] && more[x] == d.more[x]
    ensures Ok(d.(next := next, more := more),
                  g)
  {
    assert Open(true);
    forall h | h in g.chains
      ensures ChainOk(next, more, g.home, h, g.chains[h])
    {
      assert ChainOk(d.next, d.more, g.home, h, g.chains[h]);
      assert g.home[h] == h && g.home[g.chains[h].mid] == h && g.home[g.chains[h].last] == h;
    }
  }

  /** The buffers that were submitted with the given chains. */
  ghost function Bufs(chains: map<nat, Chain>, heads: seq<nat>): set<nat> {
    if heads == [] then {}
    else (if heads[0] in chains then {chains[heads[0]].req.buf} else {}) + Bufs(chains, heads[1..])
  }

  class Driver {
    /** free: disk.free; next, more: next and VRING_DESC_F_NEXT of the descriptors; info:
        info[].b; usedSeen: disk.used_idx; busy: the buffers with b->disk set. */
    var disk: Disk
    ghost var book: Book

    ghost predicate Valid()
      reads this
    {
      Ok(disk, book)
    }

    /** All descriptors free, both rings empty at any equal indices. */
    constructor (avail: seq<nat>, used: seq<nat>, idx: nat, usedIdx: nat)
      requires |avail| == |used| == NUM && idx < IDXMOD && usedIdx < IDXMOD
      ensures Valid() && book.chains == map[]
    {
      disk := Disk([true, true, true, true, true, true, true, true], [0, 0, 0, 0, 0, 0, 0, 0],
                   [false, false, false, false, false, false, false, false],
                   seq(NUM, i => Request(false, 0, 0)), [0, 0, 0, 0, 0, 0, 0, 0],
                   avail, idx, used, usedIdx, usedIdx, {}, idx, {});
      book := Book(map[], [NUM, NUM, NUM, NUM, NUM, NUM, NUM, NUM], map[], [], []);
      new;
      AllFree(disk.free);
      NothingYet(disk, book);
    }

    method AllocDesc() returns (i: int)
      requires |disk.free| == NUM
      modifies `disk
      ensures i == -1 ==> disk == old(disk) && Count(disk.free) == 0
      ensures i != -1 ==> && 0 <= i < NUM && old(disk).free[i] && disk == old(disk).(free := old(disk).free[i := false])
                          && (forall j :: 0 <= j < i ==> !old(disk).free[j])
                          && Count(disk.free) == Count(old(disk).free) - 1
    {
      i := 0;
      while i < NUM
        invariant 0 <= i <= NUM && disk == old(disk)
        invariant forall j :: 0 <= j < i ==> !disk.free[j]
      {
        if disk.free[i] {
          CountPut(disk.free, i, false);
          disk := disk.(free := disk.free[i := false]);
          return;
        }
        i := i + 1;
      }
      SomeFree(disk.free);
      i := -1;
    }

    /** The result false is one of the panics. */
    method FreeDesc(i: nat) returns (ok: bool)
      requires |disk.free| == |disk.next| == |disk.more| == NUM
      modifies `disk
      ensures ok <==> i < NUM && !old(disk).free[i]
      ensures ok ==> && disk == old(disk).(free := old(disk).free[i := true], next := old(disk).next[i := 0],
                                           more := old(disk).more[i := false])
                     && Count(disk.free) == Count(old(disk).free) + 1
      ensures !ok ==> disk == old(disk)
    {
      if i >= NUM || disk.free[i] {
        return false;
      }
      CountPut(disk.free, i, true);
      disk := disk.(next := disk.next[i := 0], more := disk.more[i := false]);
      disk := disk.(free := disk.free[i := true]);
      ok := true;
    }

    /** Three free descriptors, or none if there are fewer. */
    method Alloc3Desc() returns (ok: bool, a: nat, b: nat, c: nat)
      requires |disk.free| == |disk.next| == |disk.more| == NUM
      modifies `disk
      ensures ok <==> Count(old(disk).free) >= 3
      ensures ok ==> && a < NUM && b < NUM && c < NUM && a != b && a != c && b != c
                     && old(disk).free[a] && old(disk).free[b] && old(disk).free[c]
                     && disk == old(disk).(free := old(disk).free[a := false][b := false][c := false])
      ensures !ok ==> disk == old(disk).(next := disk.next, more := disk.more) && |disk.next| == |disk.more| == NUM
      ensures forall x :: 0 <= x < NUM && !old(disk).free[x] ==>
                disk.next[x] == old(disk).next[x] && disk.more[x] == old(disk).more[x]
    {
      ok, a, b, c := false, 0, 0, 0;
      var x := AllocDesc();
      if x < 0 {
        return;
      }
      var y := AllocDesc();
      if y < 0 {
        GiveBack(x, old(disk).free);
        return;
      }
      var z := AllocDesc();
      if z < 0 {
        GiveBack(x, old(disk).free[y := false]);
        GiveBack(y, old(disk).free);
        return;
      }
      ok, a, b, c := true, x, y, z;
    }

    /** alloc3_desc gives a descriptor back; was is what was free before. */
    method GiveBack(x: nat, ghost was: seq<bool>)
      requires |disk.free| == |disk.next| == |disk.more| == NUM == |was| && x < NUM && !disk.free[x]
      requires was == disk.free[x := true]
      modifies `disk
      ensures disk == old(disk).(free := was, next := old(disk).next[x := 0], more := old(disk).more[x := false])
    {
      var freed := FreeDesc(x);
    }

    /** virtio_disk_rw up to the notification. ok is false if there are not three free
        descriptors; the requester then sleeps and tries again. */
    method Submit(req: Request) returns (ok: bool, head: nat)
      requires Valid() && forall h {:trigger book.chains[h]} :: h in book.chains ==> book.chains[h].req.buf != req.buf
      modifies this
      ensures Valid() && (ok <==> |old(book).chains| <= 1)
      ensures ok ==> && head !in old(book).chains && head in book.chains && book.chains[head].req == req
                     && book.chains == old(book).chains[head := book.chains[head]]
                     && book.stage == old(book).stage[head := Offered]
                     && book.toTake == old(book).toTake + [head] && book.toSee == old(book).toSee
                     && disk.busy == old(disk).busy + {req.buf}
      ensures !ok ==> book == old(book) && disk.busy == old(disk).busy
    {
      var b, c;
      Sizes(disk, book);
      ok, head, b, c := Alloc3Desc();
      if !ok {
        FreeLinks(old(disk), book, disk.next, disk.more);
        return;
      }
      ghost var chain := Chain(b, c, req);
      disk := disk.(ops := disk.ops[head := req]);
      disk := disk.(next := disk.next[head := b], more := disk.more[head := true]);
      disk := disk.(next := disk.next[b := c], more := disk.more[b := true]);
      disk := disk.(next := disk.next[c := 0], more := disk.more[c := false]);
      disk := disk.(busy := disk.busy + {req.buf}, info := disk.info[head := req.buf]);
      disk := disk.(avail := disk.avail[disk.availIdx % NUM := head]);
      disk := disk.(availIdx := (disk.availIdx + 1) % IDXMOD);
      book := book.(chains := book.chains[head := chain], home := book.home[head := head][b := head][c := head],
                    stage := book.stage[head := Offered], toTake := book.toTake + [head]);
      Offering(old(disk), old(book), head, chain, disk, book);
    }

    /** The device reads the next available entry, if there is one, and the request behind it. */
    method DeviceTake() returns (ok: bool, head: nat, req: Request)
      requires Valid()
      modifies this
      ensures Valid() && (ok <==> old(book).toTake != [])
      ensures ok ==> && head == old(book).toTake[0] && head in book.chains && req == book.chains[head].req
                     && book == old(book).(toTake := old(book).toTake[1..], stage := old(book).stage[head := Taken])
      ensures !ok ==> book == old(book)
      ensures disk.busy == old(disk).busy
    {
      ok, head, req := disk.devIdx != disk.availIdx, 0, Request(false, 0, 0);
      Sizes(disk, book);
      if !ok {
        NoneOffered(disk, book);
      } else {
        FirstOffered(disk, book);
        head := disk.avail[disk.devIdx % NUM];
        req := disk.ops[head];
        disk := disk.(devIdx := (disk.devIdx + 1) % IDXMOD, inDevice := disk.inDevice + {head});
        book := book.(stage := book.stage[head := Taken], toTake := book.toTake[1..]);
        Taking(old(disk), old(book), disk, book);
      }
    }

    /** The device reports any of the chains that it has as done. */
    method DeviceFinish(head: nat)
      requires Valid() && head in disk.inDevice
      modifies this
      ensures Valid() && disk.busy == old(disk).busy
      ensures book == old(book).(toSee := old(book).toSee + [head], stage := old(book).stage[head := Finished])
    {
      Sizes(disk, book);
      disk := disk.(used := disk.used[disk.usedIdx % NUM := head], inDevice := disk.inDevice - {head});
      disk := disk.(usedIdx := (disk.usedIdx + 1) % IDXMOD);
      book := book.(stage := book.stage[head := Finished], toSee := book.toSee + [head]);
      Finishing(old(disk), old(book), head, disk, book);
    }

    /** One round of virtio_disk_intr: the oldest completion clears exactly the buffer that was
        submitted with it. */
    method IntrStep() returns (ok: bool, buf: nat)
      requires Valid()
      modifies this
      ensures Valid() && (ok <==> old(book).toSee != [])
      ensures ok ==> && old(book).toSee[0] in book.chains && buf == book.chains[old(book).toSee[0]].req.buf
                     && buf in old(disk).busy && disk.busy == old(disk).busy - {buf}
                     && book == old(book).(toSee := old(book).toSee[1..],
                                           stage := old(book).stage[old(book).toSee[0] := Seen])
      ensures !ok ==> book == old(book) && disk == old(disk)
    {
      ok, buf := disk.usedSeen != disk.usedIdx, 0;
      Sizes(disk, book);
      if !ok {
        NoneFinished(disk, book);
      } else {
        FirstFinished(disk, book);
        var id := disk.used[disk.usedSeen % NUM];
        buf := disk.info[id];
        disk := disk.(busy := disk.busy - {buf});
        disk := disk.(usedSeen := (disk.usedSeen + 1) % IDXMOD);
        book := book.(stage := book.stage[id := Seen], toSee := book.toSee[1..]);
        Seeing(old(disk), old(book), disk, book);
      }
    }

    /** virtio_disk_intr without new completions in the middle. */
    method Intr()
      requires Valid()
      modifies this
      ensures Valid() && book == old(book).(toSee := [], stage := book.stage)
      ensures disk.busy == old(disk).busy - Bufs(old(book).chains, old(book).toSee)
    {
      var ok, buf := IntrStep();
      while ok
        invariant Valid() && (!ok ==> book.toSee == [])
        invariant book == old(book).(toSee := book.toSee, stage := book.stage)
        invariant disk.busy - Bufs(book.chains, book.toSee) == old(disk).busy - Bufs(old(book).chains, old(book).toSee)
        decreases |book.toSee| + if ok then 1 else 0
      {
        ok, buf := IntrStep();
      }
    }

    /** free_chain ends after exactly the three descriptors of the chain, without a panic. */
    method FreeChain(head: nat) returns (ok: bool)
      requires ChainsOk(disk.free, disk.next, disk.more, book.chains, book.home) && head in book.chains
      modifies `disk
      ensures ok
      ensures var c, d := book.chains[head], old(disk);
              && head < NUM && c.mid < NUM && c.last < NUM
              && disk == d.(free := d.free[head := true][c.mid := true][c.last := true],
                            next := d.next[head := 0][c.mid := 0][c.last := 0],
                            more := d.more[head := false][c.mid := false][c.last := false])
      ensures Count(disk.free) == Count(old(disk).free) + 3
    {
      ghost var c, n, d := book.chains[head], 0, disk;
      assert ChainOk(d.next, d.more, book.home, head, c);
      assert book.home[head] != NUM && book.home[c.mid] != NUM && book.home[c.last] != NUM;
      var i := head;
      while true
        invariant 0 <= n < 3 && |disk.free| == |disk.next| == |disk.more| == NUM
        invariant i == if n == 0 then head else if n == 1 then c.mid else c.last
        invariant n == 0 ==> disk == d
        invariant n == 1 ==> disk == d.(free := d.free[head := true], next := d.next[head := 0],
                                        more := d.more[head := false])
        invariant n == 2 ==> disk == d.(free := d.free[head := true][c.mid := true],
                                        next := d.next[head := 0][c.mid := 0],
                                        more := d.more[head := false][c.mid := false])
        invariant Count(disk.free) == Count(d.free) + n
        decreases 3 - n
      {
        var flag, nxt := disk.more[i], disk.next[i];
        ok := FreeDesc(i);
        if !ok || !flag {
          break;
        }
        i := nxt;
        n := n + 1;
      }
    }

    /** The end of virtio_disk_rw: if b->disk is clear, the chain is freed. */
    method Complete(head: nat) returns (done: bool, ok: bool)
      requires Valid() && head in book.chains && head in book.stage
      modifies this
      ensures Valid() && ok && (done <==> old(book).stage[head].Seen?)
      ensures done ==> && book.chains == old(book).chains - {head} && book.stage == old(book).stage - {head}
                       && Count(disk.free) == Count(old(disk).free) + 3
      ensures !done ==> disk == old(disk) && book == old(book)
      ensures disk.busy == old(disk).busy && book.toSee == old(book).toSee && book.toTake == old(book).toTake
    {
      Sizes(disk, book);
      BusyUntilSeen(disk, book, head);
      done, ok := disk.info[head] !in disk.busy, true;
      if done {
        disk := disk.(info := disk.info[head := 0]);
        ok := FreeChain(head);
        ghost var c := book.chains[head];
        book := book.(home := book.home[head := NUM][c.mid := NUM][c.last := NUM], chains := book.chains - {head},
                      stage := book.stage - {head});
        Dropping(old(disk), old(book), head, disk, book);
      }
    }
  }
}
