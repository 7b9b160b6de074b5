/** malloc and free of umalloc.c. Addresses are in units of a header (16 bytes); a block of n
    units has its header in the first and n - 1 units for the caller. */
module Umalloc {
  import opened FreeList
  import opened Seals

  const MINUNITS: nat := 4096

  /** live: the blocks that callers hold. brk: where the last region from sbrk ended. */
  ghost predicate HeapOk(base: nat, ptr: map<nat, nat>, size: map<nat, nat>, ring: set<nat>, live: map<nat, nat>,
                         brk: nat) {
    && Linked(base, ptr, ring) && Sized(base, size, ring) && ApartBut(base, size, ring, base) && base < brk
    && (forall h {:trigger h in ring} :: h in ring ==> h + size[h] <= brk)
    && LiveOk(base, size, ring, live, brk)
  }

  ghost predicate LiveOk(base: nat, size: map<nat, nat>, ring: set<nat>, live: map<nat, nat>, brk: nat)
    requires forall h {:trigger h in ring} :: h in ring ==> h in size
  {
    && (forall h {:trigger h in live} :: h in live ==>
          base < h && h !in ring && h in size && size[h] == live[h] > 0 && h + live[h] <= brk)
    && (forall h, x {:trigger h in live, x in live} :: h in live && x in live && h < x ==> h + live[h] <= x)
    && (forall h, x {:trigger h in live, x in ring} :: h in live && x in ring && x != base ==>
          h + live[h] <= x || x + size[x] <= h)
  }

  ghost predicate LiveUnit(live: map<nat, nat>, u: nat) {
    exists h {:trigger h in live} :: h in live && InBlock(h, live[h], u)
  }

  /** Unit u lies in a block, free or live. */
  ghost predicate Covered(base: nat, size: map<nat, nat>, ring: set<nat>, live: map<nat, nat>, u: nat) {
    FreeUnit(base, size, ring, u) || LiveUnit(live, u)
  }

  /** No unit is in two blocks. */
  lemma BlocksAreDisjoint(base: nat, ptr: map<nat, nat>, size: map<nat, nat>, ring: set<nat>, live: map<nat, nat>,
                          brk: nat, u: nat)
    requires HeapOk(base, ptr, size, ring, live, brk)
    ensures !(FreeUnit(base, size, ring, u) && LiveUnit(live, u))
    ensures forall h, x ::
              h in ring && x in ring && h != base && x != base && InBlock(h, size[h], u) && InBlock(x, size[x], u) ==>
                h == x
    ensures forall h, x :: h in live && x in live && InBlock(h, live[h], u) && InBlock(x, live[x], u) ==> h == x
  {
  }

  // ---------- free ----------

  /** p comes before b in the ring. */
  ghost predicate Before(ptr: map<nat, nat>, ring: set<nat>, p: nat, b: nat) {
    p in ring && p < b && (Next(ptr, p) > p ==> b < Next(ptr, p))
  }

  lemma InsertBlock(base: nat, ptr: map<nat, nat>, size: map<nat, nat>, ring: set<nat>, live: map<nat, nat>, brk: nat,
                    p: nat, b: nat)
    requires HeapOk(base, ptr, size, ring, live, brk) && b in live && Before(ptr, ring, p, b)
    ensures Linked(base, ptr[b := Next(ptr, p)][p := b], ring + {b})
    ensures Sized(base, size, ring + {b}) && ApartBut(base, size, ring + {b}, b)
    ensures LiveOk(base, size, ring + {b}, live - {b}, brk)
  {
    InsertLinked(base, ptr, ring, p, b);
    assert size[b := live[b]] == size;
    InsertSized(base, size, ring, b, live[b]);
  }

  lemma InsertCovered(base: nat, size: map<nat, nat>, ring: set<nat>, live: map<nat, nat>, b: nat, u: nat)
    requires b in live && b !in ring && b != base && b in size && size[b] == live[b]
    ensures Covered(base, size, ring + {b}, live - {b}, u) <==> Covered(base, size, ring, live, u)
  {
    assert size[b := live[b]] == size;
    InsertUnits(base, size, ring, b, live[b], u);
    var live' := live - {b};
    if LiveUnit(live, u) && !InBlock(b, live[b], u) {
      var h :| h in live && InBlock(h, live[h], u);
      assert h in live';
    }
  }

  /** Block b takes in the next block x, which touches it. */
  lemma MergeBlocks(base: nat, ptr: map<nat, nat>, size: map<nat, nat>, ring: set<nat>, live: map<nat, nat>, brk: nat,
                    b: nat, c: nat)
    requires Linked(base, ptr, ring) && Sized(base, size, ring) && ApartBut(base, size, ring, c) &&
             LiveOk(base, size, ring, live, brk)
    requires b in ring && b != base && b + size[b] == Next(ptr, b) && (c == b || c == Next(ptr, b))
    ensures var x := Next(ptr, b);
            && x in ring && x > b
            && Linked(base, ptr[b := Next(ptr, x)], ring - {x})
            && Sized(base, size[b := size[b] + size[x]], ring - {x})
            && ApartBut(base, size[b := size[b] + size[x]], ring - {x}, b)
            && LiveOk(base, size[b := size[b] + size[x]], ring - {x}, live, brk)
  {
    var x := Next(ptr, b);
    assert x in ring;
    RemoveLinked(base, ptr, ring, b);
    AbsorbSized(base, size, ring, b, x);
  }

  /** Nothing touches b either, so no two blocks touch. */
  lemma NowApart(base: nat, size: map<nat, nat>, ring: set<nat>, b: nat)
    requires Sized(base, size, ring) && ApartBut(base, size, ring, b) && b in ring
    requires forall h {:trigger h in ring} :: h in ring && h != base && h < b ==> h + size[h] < b
    requires forall x {:trigger x in ring} :: x in ring && b < x ==> b + size[b] < x
    ensures ApartBut(base, size, ring, base)
  {
  }

  /** Block b is in the ring and does not touch the block after it; it may touch the one before. */
  ghost predicate Entered(base: nat, ptr: map<nat, nat>, size: map<nat, nat>, ring: set<nat>, live: map<nat, nat>,
                          brk: nat, b: nat) {
    && Linked(base, ptr, ring) && Sized(base, size, ring) && ApartBut(base, size, ring, b)
    && LiveOk(base, size, ring, live, brk)
    && b in ring && base < b && base < brk
    && (forall x {:trigger x in ring} :: x in ring && b < x ==> b + size[b] < x)
    && (forall h {:trigger h in ring} :: h in ring ==> h + size[h] <= brk)
  }

  /** free's first step: b goes in after p, joined with the next block if they touch. */
  function NextPtr(ptr: map<nat, nat>, size: map<nat, nat>, p: nat, b: nat): map<nat, nat>
    requires b in size
  {
    var x := Next(ptr, p);
    ptr[b := if b + size[b] == x then Next(ptr, x) else x][p := b]
  }

  function NextSize(ptr: map<nat, nat>, size: map<nat, nat>, p: nat, b: nat): map<nat, nat>
    requires b in size
  {
    var x := Next(ptr, p);
    if b + size[b] == x && x in size then size[b := size[b] + size[x]] else size
  }

  function NextRing(ptr: map<nat, nat>, size: map<nat, nat>, ring: set<nat>, p: nat, b: nat): set<nat>
    requires b in size
  {
    if b + size[b] == Next(ptr, p) then ring + {b} - {Next(ptr, p)} else ring + {b}
  }

  lemma EnterAlone(base: nat, ptr: map<nat, nat>, size: map<nat, nat>, ring: set<nat>, live: map<nat, nat>, brk: nat,
                   p: nat, b: nat)
    requires HeapOk(base, ptr, size, ring, live, brk) && b in live && Before(ptr, ring, p, b) &&
             b + size[b] != Next(ptr, p)
    ensures Entered(base, ptr[b := Next(ptr, p)][p := b], size, ring + {b}, live - {b}, brk, b)
  {
    assert Next(ptr, p) in ring;
    InsertBlock(base, ptr, size, ring, live, brk, p, b);
    assert Next(ptr[b := Next(ptr, p)][p := b], b) == Next(ptr, p);
  }

  lemma EnterJoined(base: nat, ptr: map<nat, nat>, size: map<nat, nat>, ring: set<nat>, live: map<nat, nat>, brk: nat,
                    p: nat, b: nat)
    requires HeapOk(base, ptr, size, ring, live, brk) && b in live && Before(ptr, ring, p, b) &&
             b + size[b] == Next(ptr, p)
    ensures var x := Next(ptr, p);
            && x in size
            && Entered(base, ptr[b := Next(ptr, x)][p := b], size[b := size[b] + size[x]], ring + {b} - {x},
                       live - {b}, brk, b)
  {
    var x := Next(ptr, p);
    assert x in ring;
    InsertBlock(base, ptr, size, ring, live, brk, p, b);
    var ptr0, ring0 := ptr[b := x][p := b], ring + {b};
    MergeBlocks(base, ptr0, size, ring0, live - {b}, brk, b, b);
    assert ptr0[b := Next(ptr0, x)] == ptr[b := Next(ptr, x)][p := b];
  }

  /** free's second step: b is joined with p if they touch. */
  lemma JoinPrevious(base: nat, ptr: map<nat, nat>, size: map<nat, nat>, ring: set<nat>, live: map<nat, nat>, brk: nat,
                     p: nat, b: nat)
    requires Entered(base, ptr, size, ring, live, brk, b) && p in ring && p < b && Next(ptr, p) == b
    ensures p + size[p] == b ==>
              HeapOk(base, ptr[p := Next(ptr, b)], size[p := size[p] + size[b]], ring - {b}, live, brk)
    ensures p + size[p] != b ==> HeapOk(base, ptr, size, ring, live, brk)
  {
    if p + size[p] == b {
      MergeBlocks(base, ptr, size, ring, live, brk, p, b);
      NowApart(base, size[p := size[p] + size[b]], ring - {b}, p);
    } else {
      forall h | h in ring && h != base && h < b
        ensures h + size[h] < b
      {
        assert Next(ptr, p) == b && (p < h ==> Next(ptr, p) <= h);
      }
      NowApart(base, size, ring, b);
    }
  }

  /** The headers after free: first step, second step. */
  function FreePtr(ptr: map<nat, nat>, size: map<nat, nat>, p: nat, b: nat): map<nat, nat>
    requires p in size && b in size
  {
    var ptr1 := NextPtr(ptr, size, p, b);
    if p + size[p] == b then ptr1[p := Next(ptr1, b)] else ptr1
  }

  function FreeSize(ptr: map<nat, nat>, size: map<nat, nat>, p: nat, b: nat): map<nat, nat>
    requires p in size && b in size
  {
    var size1 := NextSize(ptr, size, p, b);
    if p + size[p] == b then size1[p := size[p] + size1[b]] else size1
  }

  function FreeRing(ptr: map<nat, nat>, size: map<nat, nat>, ring: set<nat>, p: nat, b: nat): set<nat>
    requires p in size && b in size
  {
    var ring1 := NextRing(ptr, size, ring, p, b);
    if p + size[p] == b then ring1 - {b} else ring1
  }

  lemma FirstStepOk(base: nat, ptr: map<nat, nat>, size: map<nat, nat>, ring: set<nat>, live: map<nat, nat>, brk: nat,
                    p: nat, b: nat)
    requires HeapOk(base, ptr, size, ring, live, brk) && b in live && Before(ptr, ring, p, b)
    ensures Entered(base, NextPtr(ptr, size, p, b), NextSize(ptr, size, p, b), NextRing(ptr, size, ring, p, b),
                    live - {b}, brk, b)
    ensures p in NextRing(ptr, size, ring, p, b) && Next(NextPtr(ptr, size, p, b), p) == b &&
            NextSize(ptr, size, p, b)[p] == size[p]
  {
    assert Next(ptr, p) in ring;
    if b + size[b] == Next(ptr, p) {
      EnterJoined(base, ptr, size, ring, live, brk, p, b);
    } else {
      EnterAlone(base, ptr, size, ring, live, brk, p, b);
    }
  }

  lemma SecondStepOk(base: nat, ptr: map<nat, nat>, size: map<nat, nat>, ring: set<nat>, live: map<nat, nat>, brk: nat,
                     p: nat, b: nat,
                     ptr': map<nat, nat>, size': map<nat, nat>, ring': set<nat>)
    requires Entered(base, ptr, size, ring, live, brk, b) && p in ring && p < b && Next(ptr, p) == b
    requires ptr' == if p + size[p] == b then ptr[p := Next(ptr, b)] else ptr
    requires size' == if p + size[p] == b then size[p := size[p] + size[b]] else size
    requires ring' == if p + size[p] == b then ring - {b} else ring
    ensures HeapOk(base, ptr', size', ring', live, brk) && p in ring'
  {
    JoinPrevious(base, ptr, size, ring, live, brk, p, b);
  }

  lemma FreeOk(base: nat, ptr: map<nat, nat>, size: map<nat, nat>, ring: set<nat>, live: map<nat, nat>, brk: nat,
               p: nat, b: nat)
    requires HeapOk(base, ptr, size, ring, live, brk) && b in live && Before(ptr, ring, p, b)
    ensures HeapOk(base, FreePtr(ptr, size, p, b), FreeSize(ptr, size, p, b), FreeRing(ptr, size, ring, p, b),
                   live - {b}, brk)
    ensures p in FreeRing(ptr, size, ring, p, b)
  {
    FirstStepOk(base, ptr, size, ring, live, brk, p, b);
    SecondStepOk(base, NextPtr(ptr, size, p, b), NextSize(ptr, size, p, b), NextRing(ptr, size, ring, p, b),
                 live - {b}, brk, p, b,
                 FreePtr(ptr, size, p, b), FreeSize(ptr, size, p, b), FreeRing(ptr, size, ring, p, b));
  }

  lemma FirstStepCovered(base: nat, ptr: map<nat, nat>, size: map<nat, nat>, ring: set<nat>, live: map<nat, nat>,
                         brk: nat, p: nat, b: nat, u: nat)
    requires HeapOk(base, ptr, size, ring, live, brk) && b in live && Before(ptr, ring, p, b)
    ensures Covered(base, NextSize(ptr, size, p, b), NextRing(ptr, size, ring, p, b), live - {b}, u) <==>
              Covered(base, size, ring, live, u)
  {
    var x := Next(ptr, p);
    assert x in ring;
    InsertCovered(base, size, ring, live, b, u);
    if b + size[b] == x {
      InsertBlock(base, ptr, size, ring, live, brk, p, b);
      AbsorbUnits(base, size, ring + {b}, b, x, u);
    }
  }

  lemma FreeCovered(base: nat, ptr: map<nat, nat>, size: map<nat, nat>, ring: set<nat>, live: map<nat, nat>, brk: nat,
                    p: nat, b: nat, u: nat)
    requires HeapOk(base, ptr, size, ring, live, brk) && b in live && Before(ptr, ring, p, b)
    ensures Covered(base, FreeSize(ptr, size, p, b), FreeRing(ptr, size, ring, p, b), live - {b}, u) <==>
              Covered(base, size, ring, live, u)
  {
    FirstStepCovered(base, ptr, size, ring, live, brk, p, b, u);
    if p + size[p] == b {
      FirstStepSized(base, ptr, size, ring, live, brk, p, b);
      JoinCovered(base, NextSize(ptr, size, p, b), NextRing(ptr, size, ring, p, b), live - {b}, p, b, u);
    }
  }

  lemma FirstStepSized(base: nat, ptr: map<nat, nat>, size: map<nat, nat>, ring: set<nat>, live: map<nat, nat>,
                       brk: nat, p: nat, b: nat)
    requires HeapOk(base, ptr, size, ring, live, brk) && b in live && Before(ptr, ring, p, b)
    requires p in size && p + size[p] == b
    ensures var size1, ring1 := NextSize(ptr, size, p, b), NextRing(ptr, size, ring, p, b);
            && Sized(base, size1, ring1) && p in ring1 && b in ring1 && base < p
            && p in size1 && b in size1 && size1[p] == size[p]
  {
    FirstStepOk(base, ptr, size, ring, live, brk, p, b);
  }

  lemma JoinCovered(base: nat, size: map<nat, nat>, ring: set<nat>, live: map<nat, nat>, p: nat, x: nat, u: nat)
    requires Sized(base, size, ring) && p in ring && x in ring && base < p && p in size && x in size
    requires p + size[p] == x
    ensures Covered(base, size[p := size[p] + size[x]], ring - {x}, live, u) <==> Covered(base, size, ring, live, u)
  {
    AbsorbUnits(base, size, ring, p, x, u);
  }

  // ---------- malloc ----------

  /** n units are cut off the end of block p, or all of it. q is their header. */
  lemma CarveOk(base: nat, ptr: map<nat, nat>, size: map<nat, nat>, ring: set<nat>, live: map<nat, nat>, brk: nat,
                p: nat, n: nat)
    requires HeapOk(base, ptr, size, ring, live, brk) && p in ring && p in size && 0 < n < size[p]
    ensures var q := p + size[p] - n;
            && q !in live && q !in ring
            && HeapOk(base, ptr, size[p := size[p] - n][q := n], ring, live[q := n], brk)
  {
    var q := p + size[p] - n;
    assert q !in ring;
    assert q !in live;
  }

  lemma LiveAdded(live: map<nat, nat>, q: nat, n: nat, u: nat)
    requires q !in live
    ensures LiveUnit(live[q := n], u) <==> LiveUnit(live, u) || InBlock(q, n, u)
  {
    var live' := live[q := n];
    assert q in live';
    if LiveUnit(live, u) {
      var h :| h in live && InBlock(h, live[h], u);
      assert h in live' && live'[h] == live[h];
    }
    if LiveUnit(live', u) {
      var h :| h in live' && InBlock(h, live'[h], u);
      assert h == q || h in live;
    }
  }

  lemma CarveUnits(base: nat, size: map<nat, nat>, ring: set<nat>, p: nat, n: nat, u: nat)
    requires Sized(base, size, ring) && p in ring && p in size && 0 < n < size[p]
    ensures var q := p + size[p] - n;
            FreeUnit(base, size[p := size[p] - n][q := n], ring, u) || InBlock(q, n, u) <==>
              FreeUnit(base, size, ring, u)
  {
    var q := p + size[p] - n;
    var size' := size[p := size[p] - n][q := n];
    assert q !in ring && p != base;
    if FreeUnit(base, size, ring, u) {
      var h :| h in ring && h in size && h != base && InBlock(h, size[h], u);
      assert !InBlock(q, n, u) ==> InBlock(h, size'[h], u);
    }
    CarvedFromFree(base, size, ring, p, n, u);
  }

  lemma CarvedFromFree(base: nat, size: map<nat, nat>, ring: set<nat>, p: nat, n: nat, u: nat)
    requires Sized(base, size, ring) && p in ring && p in size && 0 < n < size[p] && p != base
    requires p + size[p] - n !in ring
    ensures var q := p + size[p] - n;
            FreeUnit(base, size[p := size[p] - n][q := n], ring, u) || InBlock(q, n, u) ==>
              FreeUnit(base, size, ring, u)
  {
    var q := p + size[p] - n;
    var size' := size[p := size[p] - n][q := n];
    if FreeUnit(base, size', ring, u) {
      var h :| h in ring && h in size' && h != base && InBlock(h, size'[h], u);
      assert InBlock(h, size[h], u);
    } else if InBlock(q, n, u) {
      assert InBlock(p, size[p], u);
    }
  }

  lemma CarveCovered(base: nat, ptr: map<nat, nat>, size: map<nat, nat>, ring: set<nat>, live: map<nat, nat>, brk: nat,
                     p: nat, n: nat, u: nat)
    requires HeapOk(base, ptr, size, ring, live, brk) && p in ring && p in size && 0 < n < size[p]
    ensures var q := p + size[p] - n;
            Covered(base, size[p := size[p] - n][q := n], ring, live[q := n], u) <==> Covered(base, size, ring, live, u)
  {
    var q := p + size[p] - n;
    assert q !in live;
    CarveUnits(base, size, ring, p, n, u);
    LiveAdded(live, q, n, u);
  }

  lemma TakeOk(base: nat, ptr: map<nat, nat>, size: map<nat, nat>, ring: set<nat>, live: map<nat, nat>, brk: nat,
               prev: nat, p: nat)
    requires HeapOk(base, ptr, size, ring, live, brk) && prev in ring && Next(ptr, prev) == p && p in size &&
             size[p] > 0
    ensures p in ring && p !in live && prev in ring - {p}
    ensures HeapOk(base, ptr[prev := Next(ptr, p)], size, ring - {p}, live[p := size[p]], brk)
  {
    assert p in ring && p != base && prev < p;
    RemoveLinked(base, ptr, ring, prev);
  }

  lemma TakeCovered(base: nat, ptr: map<nat, nat>, size: map<nat, nat>, ring: set<nat>, live: map<nat, nat>, brk: nat,
                    p: nat, u: nat)
    requires HeapOk(base, ptr, size, ring, live, brk) && p in ring && p != base
    ensures Covered(base, size, ring - {p}, live[p := size[p]], u) <==> Covered(base, size, ring, live, u)
  {
    var ring' := ring - {p};
    assert p !in live;
    LiveAdded(live, p, size[p], u);
    if FreeUnit(base, size, ring, u) {
      var h :| h in ring && h in size && h != base && InBlock(h, size[h], u);
      assert h == p || h in ring';
    }
    if InBlock(p, size[p], u) {
      assert p in ring;
    }
  }

  /** A region from sbrk, as a block that is about to be freed. */
  lemma RegionOk(base: nat, ptr: map<nat, nat>, size: map<nat, nat>, ring: set<nat>, live: map<nat, nat>, brk: nat,
                 r: nat, n: nat)
    requires HeapOk(base, ptr, size, ring, live, brk) && brk <= r && n > 0
    ensures r !in live && HeapOk(base, ptr, size[r := n], ring, live[r := n], r + n)
  {
    assert r !in ring && r !in live;
  }

  lemma RegionCovered(base: nat, ptr: map<nat, nat>, size: map<nat, nat>, ring: set<nat>, live: map<nat, nat>,
                      brk: nat, r: nat, n: nat, u: nat)
    requires HeapOk(base, ptr, size, ring, live, brk) && brk <= r && n > 0
    ensures Covered(base, size[r := n], ring, live[r := n], u) <==>
              Covered(base, size, ring, live, u) || InBlock(r, n, u)
  {
    assert r !in ring && r !in live;
    LiveAdded(live, r, n, u);
    if FreeUnit(base, size, ring, u) {
      var h :| h in ring && h in size && h != base && InBlock(h, size[h], u);
      assert InBlock(h, size[r := n][h], u);
    }
  }

  // ---------- whole operations ----------

  /** HeapOk, sealed. */
  ghost predicate Intact(base: nat, ptr: map<nat, nat>, size: map<nat, nat>, ring: set<nat>, live: map<nat, nat>,
                         brk: nat) {
    forall k: bool {:trigger Open(k)} :: Open(k) ==> HeapOk(base, ptr, size, ring, live, brk)
  }

  /** The same units lie in blocks as before. */
  ghost predicate SameUnits(base: nat, size: map<nat, nat>, ring: set<nat>, live: map<nat, nat>, size': map<nat, nat>,
                            ring': set<nat>, live': map<nat, nat>) {
    forall u {:trigger Covered(base, size', ring', live', u)} :: Covered(base, size', ring', live', u) <==>
      Covered(base, size, ring, live, u)
  }

  lemma Freeing(base: nat, ptr: map<nat, nat>, size: map<nat, nat>, ring: set<nat>, live: map<nat, nat>, brk: nat,
                p: nat, b: nat,
                ptr': map<nat, nat>, size': map<nat, nat>, ring': set<nat>)
    requires Intact(base, ptr, size, ring, live, brk) && b in live && Before(ptr, ring, p, b) && p in size && b in size
    requires ptr' == FreePtr(ptr, size, p, b) && size' == FreeSize(ptr, size, p, b) &&
             ring' == FreeRing(ptr, size, ring, p, b)
    ensures Intact(base, ptr', size', ring', live - {b}, brk) && p in ring'
    ensures SameUnits(base, size, ring, live, size', ring', live - {b})
  {
    assert Open(true);
    FreeOk(base, ptr, size, ring, live, brk, p, b);
    forall u
      ensures Covered(base, size', ring', live - {b}, u) <==> Covered(base, size, ring, live, u)
    {
      FreeCovered(base, ptr, size, ring, live, brk, p, b, u);
    }
  }

  lemma Carving(base: nat, ptr: map<nat, nat>, size: map<nat, nat>, ring: set<nat>, live: map<nat, nat>, brk: nat,
                p: nat, n: nat,
                q: nat, size': map<nat, nat>, live': map<nat, nat>)
    requires Intact(base, ptr, size, ring, live, brk) && p in ring && p in size && 0 < n < size[p]
    requires q == p + size[p] - n && size' == size[p := size[p] - n][q := n] && live' == live[q := n]
    ensures q !in live && Intact(base, ptr, size', ring, live', brk) &&
            SameUnits(base, size, ring, live, size', ring, live')
  {
    assert Open(true);
    CarveOk(base, ptr, size, ring, live, brk, p, n);
    forall u
      ensures Covered(base, size', ring, live', u) <==> Covered(base, size, ring, live, u)
    {
      CarveCovered(base, ptr, size, ring, live, brk, p, n, u);
    }
  }

  lemma Taking(base: nat, ptr: map<nat, nat>, size: map<nat, nat>, ring: set<nat>, live: map<nat, nat>, brk: nat,
               prev: nat, p: nat,
               ptr': map<nat, nat>, ring': set<nat>, live': map<nat, nat>)
    requires Intact(base, ptr, size, ring, live, brk) && prev in ring && Next(ptr, prev) == p && p in size &&
             size[p] > 0
    requires ptr' == ptr[prev := Next(ptr, p)] && ring' == ring - {p} && live' == live[p := size[p]]
    ensures p !in live && prev in ring' && Intact(base, ptr', size, ring', live', brk) &&
            SameUnits(base, size, ring, live, size, ring', live')
  {
    assert Open(true);
    TakeOk(base, ptr, size, ring, live, brk, prev, p);
    assert p in ring && p != base;
    forall u
      ensures Covered(base, size, ring', live', u) <==> Covered(base, size, ring, live, u)
    {
      TakeCovered(base, ptr, size, ring, live, brk, p, u);
    }
  }

  lemma Extending(base: nat, ptr: map<nat, nat>, size: map<nat, nat>, ring: set<nat>, live: map<nat, nat>, brk: nat,
                  r: nat, n: nat,
                  size': map<nat, nat>, live': map<nat, nat>)
    requires Intact(base, ptr, size, ring, live, brk) && brk <= r && n > 0 && size' == size[r := n] &&
             live' == live[r := n]
    ensures r !in live && Intact(base, ptr, size', ring, live', r + n)
    ensures forall u {:trigger Covered(base, size', ring, live', u)} :: Covered(base, size', ring, live', u) <==>
              Covered(base, size, ring, live, u) || InBlock(r, n, u)
  {
    assert Open(true);
    RegionOk(base, ptr, size, ring, live, brk, r, n);
    forall u
      ensures Covered(base, size', ring, live', u) <==> Covered(base, size, ring, live, u) || InBlock(r, n, u)
    {
      RegionCovered(base, ptr, size, ring, live, brk, r, n, u);
    }
  }

  /** What an intact ring offers to a walk along it. */
  lemma RingLinks(base: nat, ptr: map<nat, nat>, size: map<nat, nat>, ring: set<nat>, live: map<nat, nat>, brk: nat,
                  h: nat)
    requires Intact(base, ptr, size, ring, live, brk) && h in ring
    ensures base <= h && h in ptr && Next(ptr, h) in ring && h in size
  {
    assert Open(true);
    assert Next(ptr, h) in ring;
  }
}
