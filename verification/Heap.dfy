/** The K&R heap as a running allocator: malloc, free and morecore on headers in memory. */
module Heap {
  import opened FreeList
  import opened Seals
  import opened Umalloc

  /** Header x lies on the way round the ring from p to f, both included. */
  predicate InArc(p: nat, f: nat, x: nat) {
    if p <= f then p <= x <= f else x >= p || x <= f
  }

  ghost function Arc(ring: set<nat>, p: nat, f: nat): set<nat> {
    set x | x in ring && InArc(p, f, x)
  }

  /** From the header after f round to f is the whole ring. */
  lemma WholeRing(base: nat, ptr: map<nat, nat>, ring: set<nat>, f: nat, x: nat)
    requires Linked(base, ptr, ring) && f in ring && x in ring
    ensures InArc(Next(ptr, f), f, x)
  {
    assert Next(ptr, f) in ring;
  }

  /** One step along the ring leaves exactly p behind. */
  lemma ArcStep(base: nat, ptr: map<nat, nat>, ring: set<nat>, p: nat, f: nat)
    requires Linked(base, ptr, ring) && p in ring && f in ring && p != f
    ensures Next(ptr, p) in ring && Arc(ring, Next(ptr, p), f) < Arc(ring, p, f)
    ensures forall x {:trigger InArc(p, f, x)} :: x in ring && x != p && InArc(p, f, x) ==> InArc(Next(ptr, p), f, x)
  {
    var q := Next(ptr, p);
    assert q in ring;
    forall x | x in ring
      ensures InArc(q, f, x) <==> x != p && InArc(p, f, x)
    {
      assert p < x ==> p < q <= x;
      assert p < f ==> p < q <= f;
    }
    assert p in Arc(ring, p, f);
  }

  /** No free block has n units. */
  ghost predicate NoneFits(ring: set<nat>, size: map<nat, nat>, n: nat) {
    forall x {:trigger x in ring} :: x in ring ==> x in size && size[x] < n
  }

  ghost function Above(ring: set<nat>, p: nat): set<nat> {
    set x | x in ring && x > p
  }

  lemma AboveStep(ring: set<nat>, p: nat, q: nat)
    requires q in ring && p < q
    ensures Above(ring, q) < Above(ring, p)
  {
    assert q in Above(ring, p) && q !in Above(ring, q);
  }

  /** The freed block, or the one that it was joined with, is at least as large. */
  lemma BigEnough(ptr: map<nat, nat>, size: map<nat, nat>, ring: set<nat>, p: nat, b: nat)
    requires p in ring && p in size && b in size && p < b && Next(ptr, p) != b &&
             (b + size[b] == Next(ptr, p) ==> p != Next(ptr, p))
    ensures var ring', size' := FreeRing(ptr, size, ring, p, b), FreeSize(ptr, size, p, b);
            exists h {:trigger h in ring'} :: h in ring' && h in size' && size'[h] >= size[b]
  {
    var ring', size' := FreeRing(ptr, size, ring, p, b), FreeSize(ptr, size, p, b);
    var h := if p + size[p] == b then p else b;
    assert h in ring' && h in size' && size'[h] >= size[b];
  }

  // ---------- what morecore asks for ----------

  const INTMOD: nat := 0x1_0000_0000

  /** The argument that sbrk gets for nu units: sbrk takes an int, so the product is cut to 32 bits. */
  function SbrkArg(nu: nat): int {
    var w := 16 * nu % INTMOD;
    if w < INTMOD / 2 then w else w - INTMOD
  }

  /** The argument is what morecore goes on to use, or else less than that. */
  lemma CutIsShort(nu: nat)
    ensures SbrkArg(nu) == 16 * nu <==> 16 * nu < INTMOD / 2
    ensures SbrkArg(nu) <= 16 * nu
  {
    if 16 * nu < INTMOD {
      assert 16 * nu % INTMOD == 16 * nu;
    } else {
      assert 16 * nu % INTMOD < INTMOD <= 16 * nu;
    }
  }

  /** The units for a request, with its header. */
  function Units(nbytes: nat): (n: nat)
    ensures n > 0 && nbytes <= 16 * (n - 1) < nbytes + 16
  {
    (nbytes + 15) / 16 + 1
  }

  /** For this request malloc asks sbrk for no bytes at all. */
  lemma NothingAsked()
    ensures Units(0xFFFF_FFF0) == 0x1000_0000 && SbrkArg(Units(0xFFFF_FFF0)) == 0
  {
    assert Units(0xFFFF_FFF0) == 0x1000_0000;
    assert 16 * 0x1000_0000 == INTMOD;
  }

  /** What sbrk answers: failure, or a region some units above all earlier ones. */
  datatype Answer = Fails | Gives(gap: nat)

  /** Block h of n units is cut from the first header after f, in ring order, that has enough;
      f' is the header before that one. */
  ghost predicate FirstThatFits(ptr: map<nat, nat>, size: map<nat, nat>, ring: set<nat>, f: nat, n: nat, h: nat,
                                f': nat) {
    f' in ring &&
    var p := Next(ptr, f');
    && p in ring && p in size && size[p] >= n && h == p + size[p] - n
    && forall x {:trigger x in ring} :: x in ring && !InArc(p, f, x) ==> x in size && size[x] < n
  }

  class Heap {
    const base: nat
    var ptr: map<nat, nat>
    var size: map<nat, nat>
    var freep: nat               // 0 before the first malloc
    var brk: nat
    ghost var ring: set<nat>
    ghost var live: map<nat, nat>

    ghost predicate Valid()
      reads this
    {
      && 0 < base < brk
      && if freep == 0 then ring == {} && live == map[] else freep in ring && Intact(base, ptr, size, ring, live, brk)
    }

    ghost predicate Has(u: nat)
      reads this
    {
      Covered(base, size, ring, live, u)
    }

    constructor (base: nat, brk: nat)
      requires 0 < base < brk
      ensures Valid() && live == map[] && this.base == base
    {
      this.base, this.brk, freep, ptr, size, ring, live := base, brk, 0, map[], map[], {}, map[];
    }

    /** free's search, from freep: it ends, at the header before bp. */
    method Search(bp: nat) returns (p: nat)
      requires Valid() && freep != 0 && bp in live
      ensures Before(ptr, ring, p, bp)
    {
      assert Open(true);
      p := freep;
      assert bp !in ring && base < bp && Next(ptr, p) in ring;
      while !(bp > p && bp < ptr[p])
        invariant p in ring && p in ptr && Next(ptr, p) in ring
        decreases p > bp, Above(ring, p)
      {
        if p >= ptr[p] && (bp > p || bp < ptr[p]) {
          break;
        }
        if p < ptr[p] {
          AboveStep(ring, p, ptr[p]);
        }
        p := ptr[p];
        assert Next(ptr, p) in ring;
      }
    }

    /** free's changes to the headers, with p found. */
    method Link(p: nat, bp: nat)
      requires p in ptr && p in size && bp in size && p != bp && ptr[p] in ptr && ptr[p] in size
      modifies `ptr, `size
      ensures ptr == FreePtr(old(ptr), old(size), p, bp)
      ensures size == FreeSize(old(ptr), old(size), p, bp)
    {
      if bp + size[bp] == ptr[p] {
        size := size[bp := size[bp] + size[ptr[p]]];
        ptr := ptr[bp := ptr[ptr[p]]];
      } else {
        ptr := ptr[bp := ptr[p]];
      }
      if p + size[p] == bp {
        size := size[p := size[p] + size[bp]];
        ptr := ptr[p := ptr[bp]];
      } else {
        ptr := ptr[p := bp];
      }
    }

    method Free(ap: nat)
      requires Valid() && ap > 0 && ap - 1 in live
      modifies this
      ensures Valid() && freep != 0 && live == old(live) - {ap - 1} && brk == old(brk)
      ensures forall u :: Has(u) <==> old(Has(u))
      ensures exists h {:trigger h in ring} :: h in ring && h in size && size[h] >= old(live)[ap - 1]
    {
      var bp := ap - 1;
      var p := Search(bp);
      RingLinks(base, ptr, size, ring, live, brk, p);
      RingLinks(base, ptr, size, ring, live, brk, Next(ptr, p));
      LiveBlock(bp);
      BigEnough(ptr, size, ring, p, bp);
      Freeing(base, ptr, size, ring, live, brk, p, bp, FreePtr(ptr, size, p, bp), FreeSize(ptr, size, p, bp),
              FreeRing(ptr, size, ring, p, bp));
      ring, live := FreeRing(ptr, size, ring, p, bp), live - {bp};
      Link(p, bp);
      freep := p;
    }

    lemma LiveBlock(h: nat)
      requires Valid() && freep != 0 && h in live
      ensures h in size && size[h] == live[h] > 0 && h !in ring
    {
      assert Open(true);
    }

    /** morecore. On success the heap has the n units from r on besides, and a block large
        enough. The result 0 is failure. With cut, sbrk is asked for less than would be used, and
        the model goes no further. */
    method Morecore(nunits: nat, answer: Answer) returns (f: nat, cut: bool, ghost r: nat, ghost n: nat)
      requires Valid() && freep != 0 && nunits > 0
      modifies this
      ensures Valid() && freep != 0 && live == old(live) && (f == 0 || f == freep)
      ensures cut <==> 16 * nunits >= INTMOD / 2
      ensures f == 0 <==> cut || answer.Fails?
      ensures f == 0 ==> unchanged(this) && n == 0
      ensures f != 0 ==> && n >= nunits && n >= MINUNITS && r == old(brk) + answer.gap
                         && (forall u :: Has(u) <==> old(Has(u)) || InBlock(r, n, u))
                         && exists h {:trigger h in ring} :: h in ring && h in size && size[h] >= nunits
    {
      var nu := if nunits < MINUNITS then MINUNITS else nunits;
      r, n := 0, 0;
      CutIsShort(nu);
      cut := SbrkArg(nu) != 16 * nu;
      if cut {
        return 0, cut, r, n;
      }
      if answer.Fails? {
        return 0, cut, r, n;
      }
      var hp := brk + answer.gap;
      r, n := hp, nu;
      Extending(base, ptr, size, ring, live, brk, hp, nu, size[hp := nu], live[hp := nu]);
      size, live, brk := size[hp := nu], live[hp := nu], hp + nu;
      Free(hp + 1);
      assert live == old(live);
      f := freep;
    }

    /** malloc. The result 0 is failure, exactly if no free block fits and sbrk does not help,
        and then nothing was lost; otherwise it is the unit after the header of a new live block
        with room for nbytes, cut from the first free block after freep that fits. n units from
        r on came from sbrk, which is asked only if no free block fits. With cut, it would be
        asked for less than malloc goes on to use. */
    method Malloc(nbytes: nat, answer: Answer) returns (a: nat, cut: bool, ghost r: nat, ghost n: nat)
      requires Valid()
      modifies this
      ensures Valid() && freep != 0
      ensures a == 0 ==> live == old(live) && n == 0
      ensures a != 0 ==> && a - 1 !in old(live) && live == old(live)[a - 1 := Units(nbytes)]
                         && nbytes <= 16 * (live[a - 1] - 1)
      ensures forall u :: Has(u) <==> old(Has(u)) || InBlock(r, n, u)
      ensures n > 0 ==> answer.Gives? && r == old(brk) + answer.gap
      ensures n > 0 <==> a != 0 && NoneFits(old(ring), old(size), Units(nbytes))
      ensures a == 0 <==> NoneFits(old(ring), old(size), Units(nbytes)) && (cut || answer.Fails?)
      ensures a != 0 && n == 0 ==>
                FirstThatFits(old(ptr), old(size), old(ring), old(freep), Units(nbytes), a - 1, freep)
      ensures cut <==> 16 * Units(nbytes) >= INTMOD / 2 && NoneFits(old(ring), old(size), Units(nbytes))
    {
      var nunits := (nbytes + 15) / 16 + 1;
      if freep == 0 {
        FirstRing();
        assert NoneFits(ring, size, nunits);
      }
      a, cut, r, n := FirstFit(nunits, answer);
    }

    /** malloc's setting up of base. */
    method FirstRing()
      requires Valid() && freep == 0
      modifies this
      ensures Valid() && freep != 0 && live == old(live) && brk == old(brk) && forall u :: Has(u) <==> old(Has(u))
      ensures ring == {base} && base in size && size[base] == 0
    {
      ptr, size, freep, ring := ptr[base := base], size[base := 0], base, {base};
      assert HeapOk(base, ptr, size, ring, live, brk);
    }

    /** malloc's search. Each round leaves one header of the ring behind; morecore is called
        at most once, because after it some header is large enough. */
    method FirstFit(nunits: nat, answer: Answer) returns (a: nat, cut: bool, ghost r: nat, ghost n: nat)
      requires Valid() && freep != 0 && nunits > 0
      modifies this
      ensures Valid() && freep != 0
      ensures a == 0 ==> live == old(live) && n == 0
      ensures a != 0 ==> a - 1 !in old(live) && live == old(live)[a - 1 := nunits]
      ensures forall u :: Has(u) <==> old(Has(u)) || InBlock(r, n, u)
      ensures n > 0 ==> answer.Gives? && r == old(brk) + answer.gap
      ensures n > 0 <==> a != 0 && NoneFits(old(ring), old(size), nunits)
      ensures a == 0 <==> NoneFits(old(ring), old(size), nunits) && (cut || answer.Fails?)
      ensures a != 0 && n == 0 ==> FirstThatFits(old(ptr), old(size), old(ring), old(freep), nunits, a - 1, freep)
      ensures cut <==> 16 * nunits >= INTMOD / 2 && NoneFits(old(ring), old(size), nunits)
    {
      cut, r, n := false, 0, 0;
      var prevp := freep;
      FromFreep();
      var p := ptr[prevp];
      ghost var grown := false;
      while true
        invariant Valid() && freep != 0 && live == old(live)
        invariant prevp in ring && prevp in ptr && p == Next(ptr, prevp) && p in ring && p in size
        invariant forall x {:trigger x in ring} :: x in ring && !InArc(p, freep, x) ==> x in size && size[x] < nunits
        invariant grown ==> exists x {:trigger x in ring} :: x in ring && x in size && size[x] >= nunits
        invariant forall u :: Has(u) <==> old(Has(u)) || InBlock(r, n, u)
        invariant if grown then n > 0 && answer.Gives? && r == old(brk) + answer.gap else n == 0 && brk == old(brk)
        invariant !cut && (grown ==> 16 * nunits < INTMOD / 2)
        invariant if grown then NoneFits(old(ring), old(size), nunits)
                  else ring == old(ring) && size == old(size) && ptr == old(ptr) && freep == old(freep)
        decreases !grown, Arc(ring, p, freep)
      {
        if size[p] >= nunits {
          a := Take(prevp, p, nunits);
          return;
        }
        if p == freep {
          assert !grown ==> NoneFits(ring, size, nunits);
          var f;
          f, cut, r, n := Morecore(nunits, answer);
          if f == 0 {
            return 0, cut, r, n;
          }
          p, grown := f, true;
          FromFreep();
        } else {
          assert Linked(base, ptr, ring) by {
            assert Open(true);
          }
          ArcStep(base, ptr, ring, p, freep);
        }
        RingLinks(base, ptr, size, ring, live, brk, p);
        RingLinks(base, ptr, size, ring, live, brk, Next(ptr, p));
        prevp, p := p, ptr[p];
      }
    }

    /** From the header after freep, the whole ring lies ahead. */
    lemma FromFreep()
      requires Valid() && freep != 0
      ensures freep in ptr && freep in size && Next(ptr, freep) in ring && Next(ptr, freep) in size
      ensures forall x {:trigger x in ring} :: x in ring ==> InArc(Next(ptr, freep), freep, x)
    {
      assert Open(true);
      assert Next(ptr, freep) in ring;
      forall x | x in ring
        ensures InArc(Next(ptr, freep), freep, x)
      {
        WholeRing(base, ptr, ring, freep, x);
      }
    }

    /** malloc's taking of n units from block p. */
    method Take(prevp: nat, p: nat, nunits: nat) returns (a: nat)
      requires Valid() && freep != 0 && prevp in ring && prevp in ptr && p == Next(ptr, prevp) && p in ring &&
               p in size && 0 < nunits <= size[p]
      modifies this
      ensures Valid() && freep == prevp != 0 && brk == old(brk)
      ensures a == p + old(size)[p] - nunits + 1 && a - 1 !in old(live) && live == old(live)[a - 1 := nunits]
      ensures forall u :: Has(u) <==> old(Has(u))
    {
      RingLinks(base, ptr, size, ring, live, brk, prevp);
      if size[p] == nunits {
        TakeWhole(prevp, p);
        a := p + 1;
      } else {
        a := TakePart(p, nunits);
        freep := prevp;
      }
    }

    method TakeWhole(prevp: nat, p: nat)
      requires Valid() && freep != 0 && prevp in ring && prevp in ptr && p == Next(ptr, prevp) && p in ring &&
               p in size && size[p] > 0
      modifies this
      ensures Valid() && freep == prevp && freep != 0 && brk == old(brk)
      ensures p !in old(live) && live == old(live)[p := old(size)[p]]
      ensures forall u :: Has(u) <==> old(Has(u))
    {
      Taking(base, ptr, size, ring, live, brk, prevp, p, ptr[prevp := Next(ptr, p)], ring - {p}, live[p := size[p]]);
      RingLinks(base, ptr, size, ring, live, brk, p);
      RingLinks(base, ptr, size, ring, live, brk, prevp);
      ptr, ring, live, freep := ptr[prevp := ptr[p]], ring - {p}, live[p := size[p]], prevp;
    }

    method TakePart(p: nat, nunits: nat) returns (a: nat)
      requires Valid() && freep != 0 && p in ring && p in size && 0 < nunits < size[p]
      modifies `size, `live
      ensures Valid()
      ensures a == p + old(size)[p] - nunits + 1 && a - 1 !in old(live) && live == old(live)[a - 1 := nunits]
      ensures forall u :: Has(u) <==> old(Has(u))
    {
      ghost var q := p + size[p] - nunits;
      Carving(base, ptr, size, ring, live, brk, p, nunits, q, size[p := size[p] - nunits][q := nunits],
              live[q := nunits]);
      size := size[p := size[p] - nunits];
      var h := p + size[p];
      assert h == q;
      size := size[h := nunits];
      live := live[h := nunits];
      a := h + 1;
    }
  }

  /** Alloc: malloc, with the answer of sbrk should it be asked. */
  datatype Request = Alloc(nbytes: nat, answer: Answer) | Release(a: nat)

  /** What the caller holds after k requests with the results outs: the units of each block. */
  ghost function HeldAfter(requests: seq<Request>, outs: seq<nat>, k: nat): map<nat, nat>
    requires k <= |outs| <= |requests|
  {
    if k == 0 then map[] else Holding(HeldAfter(requests, outs, k - 1), requests[k - 1], outs[k - 1])
  }

  function Holding(held: map<nat, nat>, q: Request, a: nat): map<nat, nat> {
    match q
    case Alloc(nbytes, _) => if a == 0 then held else held[a := Units(nbytes)]
    case Release(x) => held - {x}
  }

  lemma {:induction false} HeldBefore(requests: seq<Request>, outs: seq<nat>, a: nat, k: nat)
    requires k <= |outs| < |requests|
    ensures HeldAfter(requests, outs + [a], k) == HeldAfter(requests, outs, k)
  {
    if k > 0 {
      HeldBefore(requests, outs, a, k - 1);
    }
  }

  /** The live blocks are those held. */
  ghost predicate LiveIs(live: map<nat, nat>, held: map<nat, nat>) {
    forall k: bool {:trigger Inside(k)} :: Inside(k) ==>
      forall a: nat {:trigger a in held} ::
        (a in held <==> a > 0 && a - 1 in live) && (a in held ==> held[a] == live[a - 1])
  }

  lemma NothingHeld()
    ensures LiveIs(map[], map[])
  {
  }

  lemma IsLive(live: map<nat, nat>, held: map<nat, nat>, a: nat)
    requires LiveIs(live, held)
    ensures a in held <==> a > 0 && a - 1 in live
  {
    assert Inside(true);
  }

  lemma OneMoreHeld(live: map<nat, nat>, held: map<nat, nat>, a: nat, n: nat)
    requires LiveIs(live, held) && a > 0 && a - 1 !in live
    ensures LiveIs(live[a - 1 := n], held[a := n])
  {
    assert Inside(true);
  }

  lemma OneLessHeld(live: map<nat, nat>, held: map<nat, nat>, a: nat)
    requires LiveIs(live, held) && a > 0
    ensures LiveIs(live - {a - 1}, held - {a})
  {
    assert Inside(true);
  }

  /** A request that sbrk can meet succeeds, with a block that is not held already. */
  ghost predicate Met(requests: seq<Request>, outs: seq<nat>, k: nat)
    requires k < |outs| <= |requests|
  {
    requests[k].Alloc? ==>
      && (outs[k] == 0 ==> requests[k].answer.Fails?)
      && outs[k] !in HeldAfter(requests, outs, k)
  }

  ghost predicate AllMet(requests: seq<Request>, outs: seq<nat>)
    requires |outs| <= |requests|
  {
    forall k: nat {:trigger Met(requests, outs, k)} :: k < |outs| ==> Met(requests, outs, k)
  }

  /** Any sequence of requests by a caller that releases only what it holds: the ring stays in
      order, blocks stay disjoint, no unit leaves the heap, and the live blocks are those
      handed out and not released. The run ends before a request for which sbrk would be asked
      for too little. */
  method Run(heap: Heap, requests: seq<Request>) returns (outs: seq<nat>, cut: bool)
    requires heap.Valid() && heap.live == map[]
    modifies heap
    ensures heap.Valid() && |outs| <= |requests| && LiveIs(heap.live, HeldAfter(requests, outs, |outs|))
    ensures AllMet(requests, outs)
    ensures forall u :: old(heap.Has(u)) ==> heap.Has(u)
    ensures if cut then |outs| < |requests| && requests[|outs|].Alloc? &&
                        16 * Units(requests[|outs|].nbytes) >= INTMOD / 2
            else |outs| == |requests|
  {
    var held: map<nat, nat> := map[];
    outs, cut := [], false;
    NothingHeld();
    while |outs| < |requests|
      invariant heap.Valid() && !cut && |outs| <= |requests|
      invariant held == HeldAfter(requests, outs, |outs|) && LiveIs(heap.live, held)
      invariant AllMet(requests, outs)
      invariant forall u :: old(heap.Has(u)) ==> heap.Has(u)
    {
      var a;
      a, cut := Step(heap, requests[|outs|], held);
      if cut {
        return;
      }
      HeldBefore(requests, outs, a, |outs|);
      forall k: nat | k <= |outs|
        ensures Met(requests, outs + [a], k)
      {
        HeldBefore(requests, outs, a, k);
        assert k < |outs| ==> (outs + [a])[k] == outs[k] && Met(requests, outs, k);
      }
      held := Holding(held, requests[|outs|], a);
      outs := outs + [a];
    }
  }

  method Step(heap: Heap, q: Request, held: map<nat, nat>) returns (a: nat, cut: bool)
    requires heap.Valid() && LiveIs(heap.live, held)
    modifies heap
    ensures heap.Valid() && (cut ==> q.Alloc? && 16 * Units(q.nbytes) >= INTMOD / 2)
    ensures cut || q.Release? ==> a == 0
    ensures q.Alloc? && !cut ==> (a == 0 ==> q.answer.Fails?) && a !in held
    ensures LiveIs(heap.live, Holding(held, q, a))
    ensures forall u :: old(heap.Has(u)) ==> heap.Has(u)
  {
    a, cut := 0, false;
    match q
    case Alloc(nbytes, answer) =>
      ghost var r, n;
      ghost var live := heap.live;
      a, cut, r, n := heap.Malloc(nbytes, answer);
      IsLive(live, held, a);
      if a != 0 {
        OneMoreHeld(live, held, a, Units(nbytes));
      }
    case Release(x) =>
      IsLive(heap.live, held, x);
      if x in held {
        OneLessHeld(heap.live, held, x);
        heap.Free(x);
      } else {
        assert held - {x} == held;
      }
  }
}
