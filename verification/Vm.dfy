/** vm.c over the page allocator: page tables that live in the pages the allocator hands
    out. Each operation says what becomes of the map that the table stands for, and that
    every page it takes or gives up is accounted for. */
module Vm {
  import opened PageTable

  const PHYSTOP: nat := 0x8800_0000

  /** The tree and the free pages share no page. */
  ghost predicate Apart(t: Tree, free: set<nat>) {
    forall p :: p in t.own ==> p !in free
  }

  ghost predicate Mine(t: Tree, free: set<nat>, p: nat) {
    p in t.own || p in free
  }

  /** From (mem, free, t) to (mem', free', t') table pages were taken from the free pages, or
      given back to them, and no other page was touched. */
  ghost predicate Evolves(mem: Memory, free: set<nat>, t: Tree, mem': Memory, free': set<nat>, t': Tree) {
    && TreeOk(mem', t') && Apart(t', free')
    && Root in t.at && Root in t'.at && t'.at[Root] == t.at[Root]
    && mem'.Keys == mem.Keys
    && (forall p {:trigger Mine(t', free', p)} :: Mine(t', free', p) <==> Mine(t, free, p))
    && (forall p {:trigger SameAt(mem, mem', p)} :: p in mem && !Mine(t, free, p) ==> SameAt(mem, mem', p))
  }

  lemma EvolvesTransitive(m0: Memory, f0: set<nat>, t0: Tree, m1: Memory, f1: set<nat>, t1: Tree, m2: Memory,
                          f2: set<nat>, t2: Tree)
    requires Evolves(m0, f0, t0, m1, f1, t1) && Evolves(m1, f1, t1, m2, f2, t2)
    ensures Evolves(m0, f0, t0, m2, f2, t2)
  {
    forall p | p in m0 && !Mine(t0, f0, p)
      ensures SameAt(m0, m2, p)
    {
      assert SameAt(m0, m1, p) && !Mine(t1, f1, p) && SameAt(m1, m2, p);
    }
    forall p
      ensures Mine(t2, f2, p) <==> Mine(t0, f0, p)
    {
      assert Mine(t1, f1, p) <==> Mine(t0, f0, p);
    }
  }

  /** walk takes a free page, zeroes it and links it in as node n. */
  lemma TablePageAdded(mem: Memory, free: set<nat>, t: Tree, n: Node, q: nat, mem1: Memory)
    requires TreeOk(mem, t) && Apart(t, free) && n !in t.at && n != Root && NodeInRange(n) && Parent(n) in t.at
    requires q in free && q in mem && IsPageAddr(q)
    requires mem1.Keys == mem.Keys && forall p :: p in mem && p != q ==> SameAt(mem, mem1, p)
    ensures q !in t.own && t.at[Parent(n)] in mem1 && t.at[Parent(n)] != q
    ensures Evolves(mem, free, t, Linked(mem1, t, n, q), free - {q}, AddNode(t, n, q))
  {
    forall p | p in t.own
      ensures SameAt(mem, mem1, p)
    {
      assert t.own[p] in t.at;
    }
    TreeFrame(mem, mem1, t);
    AddNodeOk(mem1, t, n, q);
    assert t.at[Parent(n)] in t.own;
    var mem', t' := Linked(mem1, t, n, q), AddNode(t, n, q);
    forall p | p in mem && !Mine(t, free, p)
      ensures SameAt(mem, mem', p)
    {
      assert SameAt(mem, mem1, p) && SameAt(mem1, mem', p);
    }
    assert forall p :: Mine(t', free - {q}, p) <==> Mine(t, free, p);
  }

  datatype WalkResult = Panicked | Absent | Slot(page: nat, k: nat)

  datatype MapResult = Mapped | NoMemory | MapPanicked

  /** abs with n pages from v on mapped to consecutive physical pages. */
  ghost function MapRange(abs: map<nat, u64>, v: nat, pa: nat, perm: nat, n: nat): map<nat, u64>
    requires IsPageAddr(pa) && pa + n * PGSIZE <= MAXPA && perm < 0x400
  {
    if n == 0 then abs
    else MapRange(abs, v, pa, perm, n - 1)[v + n - 1 := MakePte(pa + (n - 1) * PGSIZE, perm)]
  }

  /** A mapped range, page by page: exactly the pages of the range change. */
  lemma {:induction false} MapRangeAt(abs: map<nat, u64>, v: nat, pa: nat, perm: nat, n: nat, w: nat)
    requires IsPageAddr(pa) && pa + n * PGSIZE <= MAXPA && perm < 0x400
    ensures var r := MapRange(abs, v, pa, perm, n);
            && (w in r <==> w in abs || v <= w < v + n)
            && (v <= w < v + n ==> IsPageAddr(pa + (w - v) * PGSIZE) && r[w] == MakePte(pa + (w - v) * PGSIZE, perm))
            && (w in abs && !(v <= w < v + n) ==> r[w] == abs[w])
    decreases n
  {
    if n > 0 {
      MapRangeAt(abs, v, pa, perm, n - 1, w);
    }
  }

  /** abs is abs0 with the first n pages of the range mapped, none of which was mapped before. */
  ghost predicate MappedSoFar(abs0: map<nat, u64>, abs: map<nat, u64>, v: nat, pa: nat, perm: nat, n: nat)
    requires IsPageAddr(pa) && pa + n * PGSIZE <= MAXPA && perm < 0x400
  {
    && abs == MapRange(abs0, v, pa, perm, n)
    && (n > 0 ==> v + n <= MAXVPN)
    && forall w :: v <= w < v + n ==> w !in abs0
  }

  lemma PageAddrAt(pa: nat, n: nat)
    requires IsPageAddr(pa) && pa + (n + 1) * PGSIZE <= MAXPA
    ensures IsPageAddr(pa + n * PGSIZE)
  {
    assert pa + n * PGSIZE == (pa / PGSIZE + n) * PGSIZE;
  }

  lemma MapNext(abs0: map<nat, u64>, abs: map<nat, u64>, v: nat, pa: nat, perm: nat, n: nat, w: nat, q: nat)
    requires IsPageAddr(pa) && pa + (n + 1) * PGSIZE <= MAXPA && perm < 0x400
    requires MappedSoFar(abs0, abs, v, pa, perm, n) && w == v + n && q == pa + n * PGSIZE
    ensures IsPageAddr(q)
    ensures w in abs <==> w in abs0
    ensures w < MAXVPN && w !in abs ==> MappedSoFar(abs0, abs[w := MakePte(q, perm)], v, pa, perm, n + 1)
  {
    PageAddrAt(pa, n);
    MapRangeAt(abs0, v, pa, perm, n, w);
    assert MapRange(abs0, v, pa, perm, n + 1) == MapRange(abs0, v, pa, perm, n)[w := MakePte(q, perm)];
  }

  lemma LeafEvolves(mem: Memory, free: set<nat>, t: Tree, v: nat, pte: u64)
    requires TreeOk(mem, t) && Apart(t, free) && v < MAXVPN && NodeAt(0, v) in t.at
    requires pte == 0 || (IsValid(pte) && IsLeaf(pte))
    ensures t.at[NodeAt(0, v)] in mem
    ensures Evolves(mem, free, t, Store(mem, t.at[NodeAt(0, v)], Px(0, v), pte), free, LeafSet(t, v, pte))
  {
    LeafSetOk(mem, t, v, pte);
  }

  /** The node that walk reaches at a level on its way to vpn. */
  function NodeAt(level: nat, vpn: nat): Node
    requires level <= 2
  {
    if level == 2 then Root else if level == 1 then Mid(Px(2, vpn)) else Low(Px(2, vpn), Px(1, vpn))
  }

  /** The pages that the allocator manages, with their contents, and which of them are free. */
  datatype Phys = Phys(mem: Memory, free: set<nat>, end: nat)

  /** kfree's check of its argument. */
  predicate Managed(end: nat, pa: nat) { pa % PGSIZE == 0 && end <= pa < PHYSTOP }

  ghost predicate PhysOk(m: Phys) {
    && m.end > 0 && m.free <= m.mem.Keys
    && forall p {:trigger Managed(m.end, p)} :: p in m.mem ==> Managed(m.end, p)
  }

  /** kalloc, whichever free page comes first. The result 0 means that no page is free. */
  method Kalloc(m: Phys) returns (r: nat, m': Phys)
    requires PhysOk(m)
    ensures PhysOk(m')
    ensures r == 0 <==> m.free == {}
    ensures r == 0 ==> m' == m
    ensures r != 0 ==> && r in m.free
                       && m' == Phys(m.mem[r := Filled(0x505_0505_0505_0505)], m.free - {r}, m.end)
  {
    if m.free == {} {
      return 0, m;
    }
    r :| r in m.free;
    assert Managed(m.end, r);
    m' := Phys(m.mem[r := Filled(0x505_0505_0505_0505)], m.free - {r}, m.end);
  }

  /** kfree by the only holder of a page. The result false means the panic. */
  method Kfree(m: Phys, pa: nat) returns (ok: bool, m': Phys)
    requires PhysOk(m) && pa !in m.free && (Managed(m.end, pa) ==> pa in m.mem)
    ensures PhysOk(m')
    ensures ok <==> Managed(m.end, pa)
    ensures m' == if ok then Phys(m.mem[pa := Filled(0x101_0101_0101_0101)], m.free + {pa}, m.end) else m
  {
    if pa % PGSIZE != 0 || pa < m.end || pa >= PHYSTOP {
      return false, m;
    }
    m' := Phys(m.mem[pa := Filled(0x101_0101_0101_0101)], m.free + {pa}, m.end);
    ok := true;
  }

  /** From m with tree t to m' with tree t': see Evolves. */
  ghost predicate Steps(m: Phys, t: Tree, m': Phys, t': Tree) {
    PhysOk(m') && m'.end == m.end && Evolves(m.mem, m.free, t, m'.mem, m'.free, t')
  }

  /** One round of walk's loop, from the table page of node Parent(n) to that of node n. */
  method Descend(m: Phys, page: nat, k: nat, alloc: bool, ghost t: Tree, ghost n: Node)
    returns (found: bool, next: nat, m': Phys, ghost t': Tree)
    requires PhysOk(m) && TreeOk(m.mem, t) && Apart(t, m.free)
    requires n != Root && NodeInRange(n) && Parent(n) in t.at && page == t.at[Parent(n)] && k == Index(n)
    ensures Steps(m, t, m', t') && t'.abs == t.abs
    ensures found <==> n in t'.at
    ensures found ==> next == t'.at[n]
    ensures !found || n in t.at || !alloc ==> t' == t && m' == m
    ensures !found && alloc ==> m.free == {}
    ensures |m.free| <= |m'.free| + 1
  {
    m', t' := m, t;
    assert Child(Parent(n), k) == n && m.mem[page][k] == Entry(t, Parent(n), k);
    var pte := m.mem[page][k];
    if IsValid(pte) {
      return true, Pte2Pa(pte), m, t;
    }
    if !alloc {
      return false, 0, m, t;
    }
    var q, m1 := Kalloc(m);
    if q == 0 {
      return false, 0, m, t;
    }
    assert Managed(m.end, q);
    TablePageAdded(m.mem, m.free, t, n, q, m1.mem);
    var zeroed := m1.mem[q := Filled(0)];
    m' := Phys(Store(zeroed, page, k, MakePte(q, 0)), m1.free, m1.end);
    return true, q, m', AddNode(t, n, q);
  }

  method Walk(m: Phys, root: nat, va: nat, alloc: bool, ghost t: Tree) returns (r: WalkResult, m': Phys, ghost t': Tree)
    requires PhysOk(m) && TreeOk(m.mem, t) && Apart(t, m.free) && root == t.at[Root]
    ensures Steps(m, t, m', t') && t'.abs == t.abs
    ensures r.Panicked? <==> va >= MAXVA
    ensures !alloc || r.Panicked? ==> t' == t && m' == m
    ensures va < MAXVA ==>
              var n := NodeAt(0, va / PGSIZE);
              && (r.Slot? <==> n in t'.at)
              && (r.Slot? ==> r.page == t'.at[n] && r.k == Px(0, va / PGSIZE))
              && (r.Absent? && alloc ==> m'.free == {} && |m.free| <= 1)
              && (n in t.at ==> t' == t && m' == m)
    ensures |m.free| <= |m'.free| + 2
  {
    m', t' := m, t;
    if va >= MAXVA {
      return Panicked, m, t;
    }
    ghost var vpn := va / PGSIZE;
    assert NodeAt(0, vpn) in t.at ==> Parent(NodeAt(0, vpn)) in t.at;
    var level, page := 2, root;
    while level > 0
      invariant 0 <= level <= 2
      invariant Steps(m, t, m', t') && t'.abs == t.abs
      invariant NodeAt(level, vpn) in t'.at && page == t'.at[NodeAt(level, vpn)]
      invariant NodeAt(0, vpn) in t.at || !alloc ==> t' == t && m' == m
      invariant |m.free| <= |m'.free| + 2 - level
    {
      ghost var m0, t0, n := m', t', NodeAt(level - 1, vpn);
      var found;
      found, page, m', t' := Descend(m', page, PxOf(level, va), alloc, t', n);
      EvolvesTransitive(m.mem, m.free, t, m0.mem, m0.free, t0, m'.mem, m'.free, t');
      if !found {
        assert NodeAt(0, vpn) in t'.at ==> Parent(NodeAt(0, vpn)) in t'.at;
        return Absent, m', t';
      }
      level := level - 1;
    }
    r := Slot(page, PxOf(0, va));
  }

  /** One round of mappages' loop, for the page numbered v. */
  method MapOne(m: Phys, root: nat, v: nat, pa: nat, perm: nat, ghost t: Tree)
    returns (r: MapResult, m': Phys, ghost t': Tree)
    requires PhysOk(m) && TreeOk(m.mem, t) && Apart(t, m.free) && root == t.at[Root]
    requires IsPageAddr(pa) && perm < 0x400 && perm / 2 % 8 != 0
    ensures Steps(m, t, m', t')
    ensures r.MapPanicked? <==> v >= MAXVPN || v in t.abs
    ensures r.NoMemory? ==> m'.free == {} && |m.free| <= 1
    ensures |m.free| <= |m'.free| + 2
    ensures t'.abs == if r.Mapped? then t.abs[v := MakePte(pa, perm)] else t.abs
  {
    var w;
    var va := v * PGSIZE;
    assert va / PGSIZE == v && (va >= MAXVA <==> v >= MAXVPN);
    w, m', t' := Walk(m, root, va, true, t);
    if w.Panicked? {
      return MapPanicked, m', t';
    }
    LookupIsAbs(m'.mem, t', v);
    if w.Absent? {
      return NoMemory, m', t';
    }
    if IsValid(m'.mem[w.page][w.k]) {
      return MapPanicked, m', t';
    }
    ghost var m1, t1 := m', t';
    LeafEvolves(m'.mem, m'.free, t', v, MakePte(pa, perm));
    m' := Phys(Store(m'.mem, w.page, w.k, MakePte(pa, perm)), m'.free, m'.end);
    t' := LeafSet(t', v, MakePte(pa, perm));
    EvolvesTransitive(m.mem, m.free, t, m1.mem, m1.free, t1, m'.mem, m'.free, t');
    r := Mapped;
  }

  /** MapOne as the next round of a loop that began with m0 and t0 and has mapped n pages. */
  method MapRound(m: Phys, root: nat, a: nat, p: nat, perm: nat, ghost t: Tree,
                  ghost m0: Phys, ghost t0: Tree, ghost v: nat, ghost pa: nat, ghost n: nat)
    returns (r: MapResult, m': Phys, ghost t': Tree, ghost stop: nat)
    requires PhysOk(m) && Steps(m0, t0, m, t) && root == t0.at[Root]
    requires IsPageAddr(pa) && pa + (n + 1) * PGSIZE <= MAXPA && perm < 0x400 && perm / 2 % 8 != 0
    requires MappedSoFar(t0.abs, t.abs, v, pa, perm, n) && a == v + n && p == pa + n * PGSIZE
    ensures Steps(m0, t0, m', t')
    ensures r.Mapped? ==> MappedSoFar(t0.abs, t'.abs, v, pa, perm, n + 1)
    ensures !r.Mapped? ==> MappedSoFar(t0.abs, t'.abs, v, pa, perm, n)
    ensures r.NoMemory? ==> m'.free == {} && |m.free| <= 1
    ensures |m.free| <= |m'.free| + 2
    ensures stop == a && (r.MapPanicked? ==> stop >= MAXVPN || stop in t0.abs)
  {
    stop := a;
    MapNext(t0.abs, t.abs, v, pa, perm, n, a, p);
    r, m', t' := MapOne(m, root, a, p, perm, t);
    EvolvesTransitive(m0.mem, m0.free, t0, m.mem, m.free, t, m'.mem, m'.free, t');
  }

  /** mappages' loop over n pages from the page numbered v on. done is the number of pages
      mapped, also when the loop stops half-way, at page stop. */
  method MapRun(m: Phys, root: nat, v: nat, n: nat, pa: nat, perm: nat, ghost t: Tree)
    returns (r: MapResult, m': Phys, ghost t': Tree, ghost done: nat, ghost stop: nat)
    requires PhysOk(m) && TreeOk(m.mem, t) && Apart(t, m.free) && root == t.at[Root]
    requires n > 0 && IsPageAddr(pa) && pa + n * PGSIZE <= MAXPA && perm < 0x400 && perm / 2 % 8 != 0
    ensures Steps(m, t, m', t')
    ensures done <= n && stop == v + done
    ensures MappedSoFar(t.abs, t'.abs, v, pa, perm, done)
    ensures r.Mapped? ==> done == n
    ensures r.NoMemory? ==> done < n && m'.free == {} && |m.free| <= 2 * done + 1
    ensures |m.free| <= |m'.free| + 2 * n
    ensures r.MapPanicked? ==> done < n && (stop >= MAXVPN || stop in t.abs)
  {
    m', t', r := m, t, Mapped;
    for i := 0 to n
      invariant r.Mapped? && Steps(m, t, m', t')
      invariant MappedSoFar(t.abs, t'.abs, v, pa, perm, i)
      invariant |m.free| <= |m'.free| + 2 * i
    {
      done := i;
      r, m', t', stop := MapRound(m', root, v + i, pa + i * PGSIZE, perm, t', m, t, v, pa, i);
      if !r.Mapped? {
        return;
      }
    }
    done, stop := n, v + n;
  }

  method Mappages(m: Phys, root: nat, va: nat, size: nat, pa: nat, perm: nat, ghost t: Tree)
    returns (r: MapResult, m': Phys, ghost t': Tree, ghost done: nat, ghost stop: nat)
    requires PhysOk(m) && TreeOk(m.mem, t) && Apart(t, m.free) && root == t.at[Root]
    requires IsPageAddr(pa) && pa + size <= MAXPA && perm < 0x400 && perm / 2 % 8 != 0
    ensures Steps(m, t, m', t')
    ensures done <= size / PGSIZE && stop == va / PGSIZE + done
    ensures MappedSoFar(t.abs, t'.abs, va / PGSIZE, pa, perm, done)
    ensures r.Mapped? ==> done == size / PGSIZE > 0 && va % PGSIZE == 0 && size % PGSIZE == 0
    ensures r.NoMemory? ==> done < size / PGSIZE && m'.free == {} && |m.free| <= 2 * done + 1
    ensures |m.free| <= |m'.free| + 2 * (size / PGSIZE)
    ensures r.MapPanicked? ==>
              || va % PGSIZE != 0 || size % PGSIZE != 0 || size == 0
              || (done < size / PGSIZE && (stop >= MAXVPN || stop in t.abs))
  {
    m', t', done, stop := m, t, 0, va / PGSIZE;
    if va % PGSIZE != 0 || size % PGSIZE != 0 || size == 0 {
      r := MapPanicked;
    } else {
      r, m', t', done, stop := MapRun(m, root, va / PGSIZE, size / PGSIZE, pa, perm, t);
    }
  }
}
