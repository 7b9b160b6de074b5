/** The free list of umalloc.c: headers linked in address order into one ring that begins at
    base. Addresses are in units of a header, as the pointer arithmetic there is. */
module FreeList {

  predicate InBlock(h: nat, n: nat, u: nat) { h <= u < h + n }

  /** The ptr fields link the headers in ring: each to the next one up, the last to base. So
      they form one cycle in address order with a single wrap. */
  ghost predicate Linked(base: nat, ptr: map<nat, nat>, ring: set<nat>) {
    && base in ring
    && (forall h {:trigger h in ring} :: h in ring ==> base <= h)
    && (forall h {:trigger Next(ptr, h)} {:trigger LinkOk(base, ptr, ring, h)} :: h in ring ==>
          LinkOk(base, ptr, ring, h))
    && (forall h, x {:trigger Next(ptr, h), x in ring} :: h in ring && x in ring && h < x ==> h < Next(ptr, h) <= x)
  }

  ghost predicate LinkOk(base: nat, ptr: map<nat, nat>, ring: set<nat>, h: nat) {
    h in ptr && Next(ptr, h) in ring && (Next(ptr, h) <= h ==> Next(ptr, h) == base)
  }

  /** h->s.ptr */
  function Next(ptr: map<nat, nat>, h: nat): nat { if h in ptr then ptr[h] else 0 }

  /** Every header but base has a block, and the blocks do not overlap. */
  ghost predicate Sized(base: nat, size: map<nat, nat>, ring: set<nat>) {
    && (forall h {:trigger h in ring} :: h in ring ==> h in size && (size[h] > 0 <==> h != base))
    && (forall h, x {:trigger h in ring, x in ring} :: h in ring && x in ring && h < x ==> h + size[h] <= x)
  }

  /** No two blocks are adjacent, except perhaps where b is concerned. */
  ghost predicate ApartBut(base: nat, size: map<nat, nat>, ring: set<nat>, b: nat)
    requires forall h {:trigger h in ring} :: h in ring ==> h in size
  {
    forall h, x {:trigger h in ring, x in ring} :: h in ring && x in ring && h != base && h < x && h != b && x != b ==>
      h + size[h] < x
  }

  /** Unit u lies in a free block. */
  ghost predicate FreeUnit(base: nat, size: map<nat, nat>, ring: set<nat>, u: nat) {
    exists h {:trigger h in ring} :: h in ring && h in size && h != base && InBlock(h, size[h], u)
  }

  // ---------- changes of the ring ----------

  /** b goes in after p. */
  lemma InsertLinked(base: nat, ptr: map<nat, nat>, ring: set<nat>, p: nat, b: nat)
    requires Linked(base, ptr, ring) && p in ring && p < b && (Next(ptr, p) > p ==> b < Next(ptr, p))
    ensures Linked(base, ptr[b := Next(ptr, p)][p := b], ring + {b})
  {
    var ptr', ring' := ptr[b := Next(ptr, p)][p := b], ring + {b};
    assert Next(ptr, p) in ring;
    forall h {:trigger LinkOk(base, ptr', ring', h)} | h in ring'
      ensures LinkOk(base, ptr', ring', h)
    {
      assert h != b ==> Next(ptr, h) in ring;
    }
    forall h, x {:trigger Next(ptr', h), x in ring'} | h in ring' && x in ring' && h < x
      ensures h < Next(ptr', h) <= x
    {
      InsertOrder(base, ptr, ring, p, b, h, x);
    }
  }

  lemma InsertOrder(base: nat, ptr: map<nat, nat>, ring: set<nat>, p: nat, b: nat, h: nat, x: nat)
    requires Linked(base, ptr, ring) && p in ring && p < b && (Next(ptr, p) > p ==> b < Next(ptr, p))
    requires (h == b || h in ring) && (x == b || x in ring) && h < x
    ensures h < Next(ptr[b := Next(ptr, p)][p := b], h) <= x
  {
    assert Next(ptr, p) in ring;
    if h == b {
      assert p < x ==> Next(ptr, p) <= x;
    } else if h == p {
      assert x != b ==> Next(ptr, p) <= x;
    } else {
      assert Next(ptr, h) in ring;
      assert h < p ==> h < Next(ptr, h) <= p;
      assert p < h ==> p < Next(ptr, p) <= h;
    }
  }

  lemma InsertSized(base: nat, size: map<nat, nat>, ring: set<nat>, b: nat, n: nat)
    requires Sized(base, size, ring) && base < b && b !in ring && n > 0
    requires forall h {:trigger h in ring} :: h in ring ==> if h < b then h + size[h] <= b else b + n <= h
    ensures Sized(base, size[b := n], ring + {b})
  {
  }

  lemma InsertUnits(base: nat, size: map<nat, nat>, ring: set<nat>, b: nat, n: nat, u: nat)
    requires b !in ring && b != base
    ensures FreeUnit(base, size[b := n], ring + {b}, u) <==> FreeUnit(base, size, ring, u) || InBlock(b, n, u)
  {
    var ring' := ring + {b};
    assert b in ring';
    if FreeUnit(base, size, ring, u) {
      var h :| h in ring && h in size && h != base && InBlock(h, size[h], u);
      assert h in ring';
    }
  }

  /** The header after p goes. */
  lemma RemoveLinked(base: nat, ptr: map<nat, nat>, ring: set<nat>, p: nat)
    requires Linked(base, ptr, ring) && p in ring && Next(ptr, p) > p
    ensures Linked(base, ptr[p := Next(ptr, Next(ptr, p))], ring - {Next(ptr, p)})
  {
    var b := Next(ptr, p);
    var ptr', ring' := ptr[p := Next(ptr, b)], ring - {b};
    forall h {:trigger LinkOk(base, ptr', ring', h)} | h in ring'
      ensures LinkOk(base, ptr', ring', h)
    {
      assert Next(ptr, h) in ring && Next(ptr, b) in ring;
    }
    forall h, x {:trigger Next(ptr', h), x in ring'} | h in ring' && x in ring' && h < x
      ensures h < Next(ptr', h) <= x
    {
      assert h < Next(ptr, h) <= x && (b < x ==> b < Next(ptr, b) <= x);
    }
  }

  /** p takes in the adjacent block x after it. */
  lemma AbsorbSized(base: nat, size: map<nat, nat>, ring: set<nat>, p: nat, x: nat)
    requires Sized(base, size, ring) && p in ring && x in ring && p != base && p + size[p] == x
    ensures Sized(base, size[p := size[p] + size[x]], ring - {x})
  {
  }

  lemma AbsorbUnits(base: nat, size: map<nat, nat>, ring: set<nat>, p: nat, x: nat, u: nat)
    requires Sized(base, size, ring) && p in ring && x in ring && base < p && p + size[p] == x
    ensures FreeUnit(base, size[p := size[p] + size[x]], ring - {x}, u) <==> FreeUnit(base, size, ring, u)
  {
    var ring', size' := ring - {x}, size[p := size[p] + size[x]];
    if FreeUnit(base, size, ring, u) {
      var h :| h in ring && h in size && h != base && InBlock(h, size[h], u);
      var now := if h == x then p else h;
      assert now in ring';
    }
    if FreeUnit(base, size', ring', u) {
      var h :| h in ring' && h in size' && h != base && InBlock(h, size'[h], u);
      var was := if h == p && u >= x then x else h;
      assert was in ring;
    }
  }
}
