/** User address spaces: the page table of a process together with the user pages that
    it maps. Every page is a table page of one space, a user page of one space, or free. */
module UserMemory {
  import opened PageTable
  import opened Seals
  import opened Vm

  const TRAMPOLINE: nat := MAXVA - PGSIZE
  const TRAPFRAME: nat := TRAMPOLINE - PGSIZE
  const USERVPN: nat := TRAPFRAME / PGSIZE    // user memory lies below

  /** lo: the page number at which each user page is mapped. */
  datatype Space = Space(t: Tree, lo: map<nat, nat>)

  /** lo is the inverse of the translation below USERVPN. */
  ghost predicate Inverse(abs: map<nat, u64>, lo: map<nat, nat>) {
    && (forall v {:trigger Pte2Pa(abs[v])} :: v in abs && v < USERVPN ==>
          Pte2Pa(abs[v]) in lo && lo[Pte2Pa(abs[v])] == v)
    && (forall p {:trigger lo[p]} :: p in lo ==> lo[p] in abs && lo[p] < USERVPN && Pte2Pa(abs[lo[p]]) == p)
  }

  ghost predicate LeavesOk(sp: Space) {
    Inverse(sp.t.abs, sp.lo)
  }

  ghost predicate Belongs(sp: Space, p: nat) {
    p in sp.t.own || p in sp.lo
  }

  /** The pages of the space, and the free pages. */
  ghost predicate InPool(m: Phys, sp: Space, p: nat) {
    Belongs(sp, p) || p in m.free
  }

  /** No page has two of these uses. */
  ghost predicate Disjoint(m: Phys, sp: Space) {
    && (forall p :: p in sp.t.own ==> p !in sp.lo && p !in m.free)
    && (forall p :: p in sp.lo ==> p !in m.free)
  }

  ghost predicate SpaceOk(m: Phys, sp: Space) {
    Root in sp.t.at && forall k: bool {:trigger Open(k)} :: Open(k) ==> SpaceOkOpen(m, sp)
  }

  ghost predicate SpaceOkOpen(m: Phys, sp: Space) {
    && PhysOk(m) && TreeOk(m.mem, sp.t) && LeavesOk(sp) && Disjoint(m, sp)
    && forall p :: p in sp.lo ==> p in m.mem
  }

  /** From m and sp to m' and sp' pages moved between the space and the free pages only, and
      no other page was touched. */
  ghost predicate Moves(m: Phys, sp: Space, m': Phys, sp': Space) {
    && SpaceOk(m', sp') && m'.end == m.end
    && Root in sp.t.at && sp'.t.at[Root] == sp.t.at[Root]
    && forall k: bool {:trigger Shown(k)} :: Shown(k) ==> PagesMoved(m, sp, m', sp')
  }

  ghost predicate PagesMoved(m: Phys, sp: Space, m': Phys, sp': Space) {
    && m'.mem.Keys == m.mem.Keys
    && (forall p {:trigger InPool(m', sp', p)} :: InPool(m', sp', p) <==> InPool(m, sp, p))
    && (forall p {:trigger SameAt(m.mem, m'.mem, p)} :: p in m.mem && !InPool(m, sp, p) ==> SameAt(m.mem, m'.mem, p))
  }

  lemma MovesTransitive(m0: Phys, s0: Space, m1: Phys, s1: Space, m2: Phys, s2: Space)
    requires Moves(m0, s0, m1, s1) && Moves(m1, s1, m2, s2)
    ensures Moves(m0, s0, m2, s2)
  {
    assert Shown(true);
    forall p | p in m0.mem && !InPool(m0, s0, p)
      ensures SameAt(m0.mem, m2.mem, p)
    {
      assert SameAt(m0.mem, m1.mem, p) && !InPool(m1, s1, p) && SameAt(m1.mem, m2.mem, p);
    }
    forall p
      ensures InPool(m2, s2, p) <==> InPool(m0, s0, p)
    {
      assert InPool(m1, s1, p) <==> InPool(m0, s0, p);
    }
  }

  /** The pages in lo hold the same bytes. */
  ghost predicate SameData<T>(mem: map<nat, T>, mem': map<nat, T>, lo: map<nat, nat>) {
    forall p {:trigger SameAt(mem, mem', p)} :: p in lo ==> SameAt(mem, mem', p)
  }

  datatype FillResult = Filled | OutOfMemory | Remap

  /** A page is taken, given the contents data and mapped at page v; it goes back if there is
      no memory for the table. This is what uvmalloc, uvmcopy and vmfault do for each page. */
  method MapFresh(m: Phys, root: nat, v: nat, perm: nat, data: Page, ghost sp: Space)
    returns (r: FillResult, pa: nat, m': Phys, ghost sp': Space)
    requires SpaceOk(m, sp) && root == sp.t.at[Root]
    requires v < USERVPN && perm < 0x400 && perm / 2 % 8 != 0
    ensures Moves(m, sp, m', sp') && SameData(m.mem, m'.mem, sp.lo)
    ensures r.Remap? ==> v in sp.t.abs
    ensures v in sp.t.abs ==> !r.Filled?
    ensures r.OutOfMemory? ==> m'.free <= {pa} && |m.free| <= 2
    ensures r.Filled? ==> |m.free| <= |m'.free| + 3
    ensures !r.Filled? ==> sp'.t.abs == sp.t.abs && sp'.lo == sp.lo
    ensures r.Filled? ==> && pa in m.free && IsPageAddr(pa) && pa != 0
                          && sp'.t.abs == sp.t.abs[v := MakePte(pa, perm)] && sp'.lo == sp.lo[pa := v]
                          && pa in m'.mem && m'.mem[pa] == data
  {
    assert Open(true);
    var m1;
    pa, m1 := Kalloc(m);
    if pa == 0 {
      return OutOfMemory, 0, m, sp;
    }
    m1 := Phys(m.mem[pa := data], m1.free, m1.end);
    TakenApart(m, sp, pa, data);
    var mr, m2;
    ghost var t';
    mr, m2, t' := MapPage(m1, root, v, pa, perm, sp.t);
    if mr.Mapped? {
      FreshMapped(m, sp, pa, data, m2, t', v, perm);
      return Filled, pa, m2, Space(t', sp.lo[pa := v]);
    }
    FreshKept(m, sp, pa, data, m2, t', PageTable.Filled(0x101_0101_0101_0101));
    var ok;
    ok, m' := Kfree(m2, pa);
    sp' := Space(t', sp.lo);
    r := if mr.NoMemory? then OutOfMemory else Remap;
  }

  /** mappages for a single page. */
  method MapPage(m: Phys, root: nat, v: nat, pa: nat, perm: nat, ghost t: Tree)
    returns (r: MapResult, m': Phys, ghost t': Tree)
    requires PhysOk(m) && TreeOk(m.mem, t) && Apart(t, m.free) && root == t.at[Root]
    requires v < MAXVPN && IsPageAddr(pa) && pa + PGSIZE <= MAXPA && perm < 0x400 && perm / 2 % 8 != 0
    ensures Steps(m, t, m', t')
    ensures r.MapPanicked? ==> v in t.abs
    ensures r.Mapped? ==> v !in t.abs
    ensures r.NoMemory? ==> m'.free == {} && |m.free| <= 1
    ensures |m.free| <= |m'.free| + 2
    ensures t'.abs == if r.Mapped? then t.abs[v := MakePte(pa, perm)] else t.abs
  {
    ghost var done, stop;
    r, m', t', done, stop := Mappages(m, root, v * PGSIZE, PGSIZE, pa, perm, t);
    OnePage(t.abs, t'.abs, v, pa, perm, done);
  }

  lemma OnePage(abs: map<nat, u64>, abs': map<nat, u64>, v: nat, pa: nat, perm: nat, n: nat)
    requires n <= 1 && IsPageAddr(pa) && pa + PGSIZE <= MAXPA && perm < 0x400
    requires MappedSoFar(abs, abs', v * PGSIZE / PGSIZE, pa, perm, n)
    ensures n == 0 ==> abs' == abs
    ensures n == 1 ==> abs' == abs[v := MakePte(pa, perm)] && v !in abs
  {
    assert v * PGSIZE / PGSIZE == v;
    assert MapRange(abs, v, pa, perm, 0) == abs;
  }

  lemma LeavesAdded(sp: Space, t': Tree, pa: nat, v: nat, perm: nat)
    requires LeavesOk(sp) && pa !in sp.lo && v !in sp.t.abs && v < USERVPN && IsPageAddr(pa) && perm < 0x400
    requires t'.abs == sp.t.abs[v := MakePte(pa, perm)]
    ensures LeavesOk(Space(t', sp.lo[pa := v]))
  {
  }

  lemma FreshMapped(m: Phys, sp: Space, pa: nat, data: Page, m2: Phys, t': Tree, v: nat, perm: nat)
    requires SpaceOk(m, sp) && pa in m.free && IsPageAddr(pa) && v < USERVPN && perm < 0x400 && v !in sp.t.abs
    requires Steps(Phys(m.mem[pa := data], m.free - {pa}, m.end), sp.t, m2, t')
    requires t'.abs == sp.t.abs[v := MakePte(pa, perm)]
    ensures var sp' := Space(t', sp.lo[pa := v]);
            Moves(m, sp, m2, sp') && SameData(m.mem, m2.mem, sp.lo) && pa in m2.mem && m2.mem[pa] == data
  {
    var sp', m1 := Space(t', sp.lo[pa := v]), Phys(m.mem[pa := data], m.free - {pa}, m.end);
    HeldApart(m, sp, pa, data, m2, t');
    MappedSpace(m, sp, pa, data, m2, t', v, perm);
    forall p | p in m.mem && !InPool(m, sp, p)
      ensures SameAt(m.mem, m2.mem, p)
    {
      assert SameAt(m1.mem, m2.mem, p);
    }
    forall p
      ensures InPool(m2, sp', p) <==> InPool(m, sp, p)
    {
      assert Mine(t', m2.free, p) <==> Mine(sp.t, m1.free, p);
    }
  }

  lemma MappedSpace(m: Phys, sp: Space, pa: nat, data: Page, m2: Phys, t': Tree, v: nat, perm: nat)
    requires SpaceOk(m, sp) && pa in m.free && IsPageAddr(pa) && v < USERVPN && perm < 0x400 && v !in sp.t.abs
    requires Steps(Phys(m.mem[pa := data], m.free - {pa}, m.end), sp.t, m2, t')
    requires t'.abs == sp.t.abs[v := MakePte(pa, perm)]
    ensures SpaceOk(m2, Space(t', sp.lo[pa := v])) && pa in m.mem
  {
    assert Open(true);
    HeldApart(m, sp, pa, data, m2, t');
    LeavesAdded(sp, t', pa, v, perm);
    assert forall p :: p in sp.lo ==> SameAt(m.mem, m2.mem, p);
  }

  /** What held while page pa was held: the table pages that moved were not user pages. */
  lemma HeldApart(m: Phys, sp: Space, pa: nat, data: Page, m2: Phys, t': Tree)
    requires SpaceOk(m, sp) && pa in m.free
    requires Steps(Phys(m.mem[pa := data], m.free - {pa}, m.end), sp.t, m2, t')
    ensures pa in m2.mem && m2.mem[pa] == data && pa !in m2.free && pa !in t'.own && pa !in sp.lo
    ensures SameData(m.mem, m2.mem, sp.lo)
    ensures forall p :: p in sp.lo ==> p !in t'.own && p !in m2.free
  {
    assert Open(true);
    var m1 := Phys(m.mem[pa := data], m.free - {pa}, m.end);
    assert !Mine(sp.t, m1.free, pa) && !Mine(t', m2.free, pa) && SameAt(m1.mem, m2.mem, pa);
    forall p | p in sp.lo
      ensures SameAt(m.mem, m2.mem, p) && p !in t'.own && p !in m2.free
    {
      assert !Mine(sp.t, m1.free, p) && !Mine(t', m2.free, p) && SameAt(m1.mem, m2.mem, p);
    }
  }

  /** The page goes back unmapped: as FreshMapped, for a mapping that failed. */
  lemma FreshKept(m: Phys, sp: Space, pa: nat, data: Page, m2: Phys, t': Tree, junk: Page)
    requires SpaceOk(m, sp) && pa in m.free
    requires Steps(Phys(m.mem[pa := data], m.free - {pa}, m.end), sp.t, m2, t') && t'.abs == sp.t.abs
    ensures pa in m2.mem && pa !in m2.free && Managed(m2.end, pa)
    ensures var m3 := Phys(m2.mem[pa := junk], m2.free + {pa}, m2.end);
            Moves(m, sp, m3, Space(t', sp.lo)) && SameData(m.mem, m3.mem, sp.lo)
  {
    HeldApart(m, sp, pa, data, m2, t');
    KeptSpace(m, sp, pa, data, m2, t', junk);
    var m1 := Phys(m.mem[pa := data], m.free - {pa}, m.end);
    var m3, sp' := Phys(m2.mem[pa := junk], m2.free + {pa}, m2.end), Space(t', sp.lo);
    forall p
      ensures InPool(m3, sp', p) <==> InPool(m, sp, p)
    {
      assert Mine(t', m2.free, p) <==> Mine(sp.t, m1.free, p);
    }
    forall p | p in m.mem && !InPool(m, sp, p)
      ensures SameAt(m.mem, m3.mem, p)
    {
      assert SameAt(m1.mem, m2.mem, p);
    }
  }

  lemma KeptSpace(m: Phys, sp: Space, pa: nat, data: Page, m2: Phys, t': Tree, junk: Page)
    requires SpaceOk(m, sp) && pa in m.free
    requires Steps(Phys(m.mem[pa := data], m.free - {pa}, m.end), sp.t, m2, t') && t'.abs == sp.t.abs
    ensures Managed(m2.end, pa) && pa in m.mem
    ensures var m3 := Phys(m2.mem[pa := junk], m2.free + {pa}, m2.end);
            SpaceOk(m3, Space(t', sp.lo)) && SameData(m.mem, m3.mem, sp.lo)
  {
    assert Open(true);
    HeldApart(m, sp, pa, data, m2, t');
    TreeFrame(m2.mem, m2.mem[pa := junk], t');
    assert LeavesOk(Space(t', sp.lo));
    forall p | p in sp.lo
      ensures SameAt(m.mem, m2.mem[pa := junk], p)
    {
      assert SameAt(m.mem, m2.mem, p);
    }
  }

  /** The page just taken is outside what Mappages works on. */
  lemma TakenApart(m: Phys, sp: Space, pa: nat, data: Page)
    requires SpaceOk(m, sp) && pa in m.free
    ensures var m1 := Phys(m.mem[pa := data], m.free - {pa}, m.end);
            && PhysOk(m1) && TreeOk(m1.mem, sp.t) && Apart(sp.t, m1.free) && IsPageAddr(pa)
            && pa !in sp.t.own && pa !in sp.lo && pa !in m1.free
  {
    assert Open(true);
    assert Managed(m.end, pa);
    TreeFrame(m.mem, m.mem[pa := data], sp.t);
  }

  // ---------- uvmunmap ----------

  /** One round of uvmunmap. With doFree the page must be a user page. */
  method UnmapOne(m: Phys, root: nat, v: nat, doFree: bool, ghost sp: Space) returns (m': Phys, ghost sp': Space)
    requires SpaceOk(m, sp) && root == sp.t.at[Root]
    requires v < MAXVPN && (doFree <==> v < USERVPN)
    ensures Moves(m, sp, m', sp') && SameData(m.mem, m'.mem, sp'.lo)
    ensures sp'.t.abs == sp.t.abs - {v}
    ensures SubLeaves(sp', sp)
  {
    assert Open(true);
    var w;
    ghost var t';
    m', sp' := m, sp;
    var va := v * PGSIZE;
    assert va / PGSIZE == v && va < MAXVA;
    w, m', t' := Walk(m, root, va, false, sp.t);
    LookupIsAbs(m.mem, sp.t, v);
    if w.Absent? || !IsValid(m.mem[w.page][w.k]) {
      assert v !in sp.t.abs;
      assert sp.t.abs - {v} == sp.t.abs;
      return m, sp;
    }
    var pte := m.mem[w.page][w.k];
    if doFree {
      var ok;
      UnmapFrees(m, sp, v, PageTable.Filled(0x101_0101_0101_0101));
      ok, m' := Kfree(m, Pte2Pa(pte));
      sp' := Space(LeafSet(sp.t, v, 0), sp.lo - {Pte2Pa(pte)});
    } else {
      UnmapKeeps(m, sp, v);
      sp' := Space(LeafSet(sp.t, v, 0), sp.lo);
    }
    m' := Phys(Store(m'.mem, w.page, w.k, 0), m'.free, m'.end);
  }

  lemma UnmapFrees(m: Phys, sp: Space, v: nat, junk: Page)
    requires SpaceOk(m, sp) && v in sp.t.abs && v < USERVPN
    ensures assert Open(true);
            var pa, low := Pte2Pa(sp.t.abs[v]), sp.t.at[NodeAt(0, v)];
            && pa in sp.lo && pa in m.mem && pa !in m.free && Managed(m.end, pa) && low in m.mem
            && var sp' := Space(LeafSet(sp.t, v, 0), sp.lo - {pa});
               var mem' := Store(m.mem[pa := junk], low, Px(0, v), 0);
               Moves(m, sp, Phys(mem', m.free + {pa}, m.end), sp') && SameData(m.mem, mem', sp'.lo)
  {
    assert Open(true);
    var pa, low := Pte2Pa(sp.t.abs[v]), sp.t.at[NodeAt(0, v)];
    TreeFrame(m.mem, m.mem[pa := junk], sp.t);
    LeafSetOk(m.mem[pa := junk], sp.t, v, 0);
    var sp' := Space(LeafSet(sp.t, v, 0), sp.lo - {pa});
    LeavesRemoved(sp, v);
    assert low in sp.t.own;
    var m' := Phys(Store(m.mem[pa := junk], low, Px(0, v), 0), m.free + {pa}, m.end);
    assert forall p :: InPool(m', sp', p) <==> InPool(m, sp, p);
  }

  lemma LeavesRemoved(sp: Space, v: nat)
    requires LeavesOk(sp) && v in sp.t.abs && v < USERVPN
    ensures LeavesOk(Space(LeafSet(sp.t, v, 0), sp.lo - {Pte2Pa(sp.t.abs[v])}))
  {
  }

  lemma UnmapKeeps(m: Phys, sp: Space, v: nat)
    requires SpaceOk(m, sp) && v in sp.t.abs && v >= USERVPN
    ensures assert Open(true);
            var low := sp.t.at[NodeAt(0, v)];
            && low in m.mem
            && var sp', mem' := Space(LeafSet(sp.t, v, 0), sp.lo), Store(m.mem, low, Px(0, v), 0);
               Moves(m, sp, Phys(mem', m.free, m.end), sp') && SameData(m.mem, mem', sp'.lo)
  {
    assert Open(true);
    var low := sp.t.at[NodeAt(0, v)];
    LeafSetOk(m.mem, sp.t, v, 0);
    assert low in sp.t.own;
    var m', sp' := Phys(Store(m.mem, low, Px(0, v), 0), m.free, m.end), Space(LeafSet(sp.t, v, 0), sp.lo);
    assert LeavesOk(sp');
    assert forall p :: InPool(m', sp', p) <==> InPool(m, sp, p);
  }

  ghost predicate SubLeaves(sp': Space, sp: Space) {
    forall p {:trigger p in sp'.lo} :: p in sp'.lo ==> p in sp.lo
  }

  /** abs without the n pages from v on. */
  ghost function Minus(abs: map<nat, u64>, v: nat, n: nat): map<nat, u64> {
    map w | w in abs && !(v <= w < v + n) :: abs[w]
  }

  /** Exactly the n pages from v on go, and the pages that remain keep their contents. */
  ghost predicate Unmapped(m: Phys, sp: Space, v: nat, n: nat, m': Phys, sp': Space) {
    && Moves(m, sp, m', sp')
    && sp'.t.abs == Minus(sp.t.abs, v, n)
    && SubLeaves(sp', sp) && SameData(m.mem, m'.mem, sp'.lo)
  }

  method Uvmunmap(m: Phys, root: nat, va: nat, npages: nat, doFree: bool, ghost sp: Space)
    returns (ok: bool, m': Phys, ghost sp': Space)
    requires SpaceOk(m, sp) && root == sp.t.at[Root]
    requires doFree ==> va / PGSIZE + npages <= USERVPN
    requires !doFree ==> USERVPN <= va / PGSIZE && va / PGSIZE + npages <= MAXVPN
    ensures ok <==> va % PGSIZE == 0
    ensures !ok ==> m' == m && sp' == sp
    ensures ok ==> Unmapped(m, sp, va / PGSIZE, npages, m', sp')
  {
    m', sp', ok := m, sp, va % PGSIZE == 0;
    if ok {
      m', sp' := UnmapRun(m, root, va / PGSIZE, npages, doFree, sp);
    }
  }

  /** uvmunmap's loop. */
  method UnmapRun(m: Phys, root: nat, v: nat, n: nat, doFree: bool, ghost sp: Space)
    returns (m': Phys, ghost sp': Space)
    requires SpaceOk(m, sp) && root == sp.t.at[Root]
    requires if doFree then v + n <= USERVPN else USERVPN <= v && v + n <= MAXVPN
    ensures Unmapped(m, sp, v, n, m', sp')
  {
    m', sp' := m, sp;
    NothingUnmapped(m, sp, v);
    for i := 0 to n
      invariant Unmapped(m, sp, v, i, m', sp')
    {
      m', sp' := UnmapRound(m', root, v + i, doFree, sp', m, sp, v, i);
    }
  }

  /** UnmapOne as the next round of a loop that began with m0 and sp0 and has unmapped n pages. */
  method UnmapRound(m: Phys, root: nat, a: nat, doFree: bool, ghost sp: Space, ghost m0: Phys, ghost sp0: Space,
                    ghost v: nat, ghost n: nat)
    returns (m': Phys, ghost sp': Space)
    requires Unmapped(m0, sp0, v, n, m, sp) && root == sp0.t.at[Root]
    requires a == v + n && a < MAXVPN && (doFree <==> a < USERVPN)
    ensures Unmapped(m0, sp0, v, n + 1, m', sp')
  {
    m', sp' := UnmapOne(m, root, a, doFree, sp);
    OneMoreUnmapped(m0, sp0, v, n, m, sp, m', sp');
  }

  lemma NothingUnmapped(m: Phys, sp: Space, v: nat)
    requires SpaceOk(m, sp)
    ensures Unmapped(m, sp, v, 0, m, sp)
  {
    assert Open(true);
    assert Minus(sp.t.abs, v, 0) == sp.t.abs;
  }

  lemma OneMoreUnmapped(m: Phys, sp: Space, v: nat, n: nat, m1: Phys, sp1: Space, m2: Phys, sp2: Space)
    requires Unmapped(m, sp, v, n, m1, sp1) && Moves(m1, sp1, m2, sp2) && SameData(m1.mem, m2.mem, sp2.lo)
    requires sp2.t.abs == sp1.t.abs - {v + n} && SubLeaves(sp2, sp1)
    ensures Unmapped(m, sp, v, n + 1, m2, sp2)
  {
    MovesTransitive(m, sp, m1, sp1, m2, sp2);
    MinusStep(sp.t.abs, v, n);
    SameDataTransitive(m.mem, m1.mem, m2.mem, sp1.lo, sp2.lo);
  }

  lemma MinusStep(abs: map<nat, u64>, v: nat, n: nat)
    ensures Minus(abs, v, n) - {v + n} == Minus(abs, v, n + 1)
  {
  }

  lemma SameDataTransitive<T>(a: map<nat, T>, b: map<nat, T>, c: map<nat, T>, lo: map<nat, nat>, lo': map<nat, nat>)
    requires SameData(a, b, lo) && SameData(b, c, lo') && forall p :: p in lo' ==> p in lo
    ensures SameData(a, c, lo')
  {
    forall p | p in lo'
      ensures SameAt(a, c, p)
    {
      assert SameAt(a, b, p) && SameAt(b, c, p);
    }
  }

  // ---------- uvmdealloc, uvmalloc ----------

  function PgRoundUp(sz: nat): nat { (sz + PGSIZE - 1) / PGSIZE * PGSIZE }

  /** PGROUNDUP(sz) / PGSIZE */
  function Pages(sz: nat): (n: nat)
    ensures n * PGSIZE == PgRoundUp(sz)
  {
    (sz + PGSIZE - 1) / PGSIZE
  }

  method Uvmdealloc(m: Phys, root: nat, oldsz: nat, newsz: nat, ghost sp: Space)
    returns (r: nat, m': Phys, ghost sp': Space)
    requires SpaceOk(m, sp) && root == sp.t.at[Root] && oldsz <= TRAPFRAME
    ensures r == if newsz >= oldsz then oldsz else newsz
    ensures Unmapped(m, sp, Pages(r), Pages(oldsz) - Pages(r), m', sp')
  {
    m', sp' := m, sp;
    if newsz >= oldsz {
      NothingUnmapped(m, sp, Pages(oldsz));
      return oldsz, m, sp;
    }
    NothingUnmapped(m, sp, Pages(newsz));
    if PgRoundUp(newsz) < PgRoundUp(oldsz) {
      var npages := (PgRoundUp(oldsz) - PgRoundUp(newsz)) / PGSIZE;
      assert npages == Pages(oldsz) - Pages(newsz) && PgRoundUp(newsz) / PGSIZE == Pages(newsz);
      var ok;
      ok, m', sp' := Uvmunmap(m, root, PgRoundUp(newsz), npages, true, sp);
    }
    r := newsz;
  }

  /** A page that is to be mapped: its flags and its contents. */
  datatype Want<T> = Want(flags: nat, data: T)

  /** Page v is mapped with the flags and contents of w. */
  ghost predicate MapsTo<T>(mem: map<nat, T>, abs: map<nat, u64>, v: nat, w: Want<T>) {
    && v in abs && PteFlags(abs[v]) == w.flags
    && Pte2Pa(abs[v]) in mem && mem[Pte2Pa(abs[v])] == w.data
  }

  /** abs' maps what abs maps, and besides exactly the pages in wants, as wanted. */
  ghost predicate Adds<T>(abs: map<nat, u64>, wants: map<nat, Want<T>>, mem': map<nat, T>, abs': map<nat, u64>) {
    && (forall v {:trigger v in abs'} :: v in abs' <==> v in abs || v in wants)
    && (forall v {:trigger v in abs} :: v in abs ==> v !in wants && abs'[v] == abs[v])
    && (forall v {:trigger wants[v]} :: v in wants ==> v < USERVPN && MapsTo(mem', abs', v, wants[v]))
  }

  lemma AddsOne<T>(abs: map<nat, u64>, wants: map<nat, Want<T>>, mem: map<nat, T>, abs1: map<nat, u64>,
                   lo: map<nat, nat>,
                   mem': map<nat, T>, v: nat, pa: nat, perm: nat, data: T)
    requires Adds(abs, wants, mem, abs1) && Inverse(abs1, lo) && SameData(mem, mem', lo)
    requires v < USERVPN && v !in abs1 && IsPageAddr(pa) && perm < 0x400 && pa in mem' && mem'[pa] == data
    ensures Adds(abs, wants[v := Want(WithValid(perm), data)], mem', abs1[v := MakePte(pa, perm)])
  {
    forall w | w in wants
      ensures MapsTo(mem', abs1, w, wants[w])
    {
      assert MapsTo(mem, abs1, w, wants[w]);
      assert SameAt(mem, mem', Pte2Pa(abs1[w]));
    }
  }

  /** Space sp became sp', with the pages in wants besides. The pages of sp keep their contents. */
  ghost predicate Extends(m: Phys, sp: Space, wants: map<nat, Want<Page>>, m': Phys, sp': Space) {
    && Moves(m, sp, m', sp') && SameData(m.mem, m'.mem, sp.lo) && SubLeaves(sp, sp')
    && Adds(sp.t.abs, wants, m'.mem, sp'.t.abs)
  }

  lemma NothingAdded(m: Phys, sp: Space)
    requires SpaceOk(m, sp)
    ensures Extends(m, sp, map[], m, sp)
  {
    assert Open(true);
  }

  lemma OneMoreAdded(m: Phys, sp: Space, wants: map<nat, Want<Page>>, m1: Phys, sp1: Space, m2: Phys, sp2: Space,
                     v: nat, pa: nat, perm: nat, data: Page)
    requires Extends(m, sp, wants, m1, sp1) && Moves(m1, sp1, m2, sp2) && SameData(m1.mem, m2.mem, sp1.lo)
    requires v < USERVPN && v !in sp1.t.abs && IsPageAddr(pa) && perm < 0x400
    requires sp2.t.abs == sp1.t.abs[v := MakePte(pa, perm)] && sp2.lo == sp1.lo[pa := v]
    requires pa in m2.mem && m2.mem[pa] == data
    ensures Extends(m, sp, wants[v := Want(WithValid(perm), data)], m2, sp2)
  {
    assert Open(true);
    MovesTransitive(m, sp, m1, sp1, m2, sp2);
    SameDataTransitive(m.mem, m1.mem, m2.mem, sp.lo, sp.lo);
    AddsOne(sp.t.abs, wants, m1.mem, sp1.t.abs, sp1.lo, m2.mem, v, pa, perm, data);
  }

  /** Nothing more added, although table pages may have come. */
  lemma NoneMoreAdded(m: Phys, sp: Space, wants: map<nat, Want<Page>>, m1: Phys, sp1: Space, m2: Phys, sp2: Space)
    requires Extends(m, sp, wants, m1, sp1) && Moves(m1, sp1, m2, sp2) && SameData(m1.mem, m2.mem, sp1.lo)
    requires sp2.t.abs == sp1.t.abs && sp2.lo == sp1.lo
    ensures Extends(m, sp, wants, m2, sp2)
  {
    assert Open(true);
    MovesTransitive(m, sp, m1, sp1, m2, sp2);
    SameDataTransitive(m.mem, m1.mem, m2.mem, sp.lo, sp.lo);
    AddsKept(sp.t.abs, wants, m1.mem, sp1.t.abs, sp1.lo, m2.mem);
  }

  lemma AddsKept<T>(abs: map<nat, u64>, wants: map<nat, Want<T>>, mem: map<nat, T>, abs1: map<nat, u64>,
                    lo: map<nat, nat>, mem': map<nat, T>)
    requires Adds(abs, wants, mem, abs1) && Inverse(abs1, lo) && SameData(mem, mem', lo)
    ensures Adds(abs, wants, mem', abs1)
  {
    forall w | w in wants
      ensures MapsTo(mem', abs1, w, wants[w])
    {
      assert MapsTo(mem, abs1, w, wants[w]);
      assert SameAt(mem, mem', Pte2Pa(abs1[w]));
    }
  }

  /** Unmapping a range takes back what was added in it. */
  lemma AddedThenUnmapped(m: Phys, sp: Space, wants: map<nat, Want<Page>>, m1: Phys, sp1: Space, v: nat, n: nat,
                          m2: Phys, sp2: Space)
    requires SpaceOk(m, sp) && Extends(m, sp, wants, m1, sp1) && Unmapped(m1, sp1, v, n, m2, sp2)
    requires forall w :: w in wants ==> v <= w < v + n
    ensures Unmapped(m, sp, v, n, m2, sp2)
  {
    assert Open(true);
    MovesTransitive(m, sp, m1, sp1, m2, sp2);
    AddedThenGone(sp.t.abs, sp.lo, wants, m1.mem, sp1.t.abs, v, n, sp2.lo);
    SameDataTransitive(m.mem, m1.mem, m2.mem, sp.lo, sp2.lo);
  }

  lemma AddedThenGone<T>(abs: map<nat, u64>, lo: map<nat, nat>, wants: map<nat, Want<T>>, mem: map<nat, T>,
                         abs1: map<nat, u64>,
                         v: nat, n: nat, lo2: map<nat, nat>)
    requires Adds(abs, wants, mem, abs1) && Inverse(abs, lo) && Inverse(Minus(abs1, v, n), lo2)
    requires forall w :: w in wants ==> v <= w < v + n
    ensures Minus(abs1, v, n) == Minus(abs, v, n)
    ensures forall p :: p in lo2 ==> p in lo
  {
    forall p | p in lo2
      ensures p in lo
    {
      assert lo2[p] in Minus(abs1, v, n);
      assert Pte2Pa(abs[lo2[p]]) == p;
    }
  }

  /** One more page for a space, in a loop that began with m0 and sp0 and has added wants. */
  method AddPage(m: Phys, root: nat, v: nat, perm: nat, data: Page, ghost sp: Space, ghost m0: Phys, ghost sp0: Space,
                 ghost wants: map<nat, Want<Page>>)
    returns (r: FillResult, m': Phys, ghost sp': Space, ghost wants': map<nat, Want<Page>>)
    requires Extends(m0, sp0, wants, m, sp) && root == sp0.t.at[Root]
    requires v < USERVPN && v !in wants && perm < 0x400 && perm / 2 % 8 != 0
    ensures Extends(m0, sp0, wants', m', sp') && Moves(m, sp, m', sp')
    ensures wants' == if r.Filled? then wants[v := Want(WithValid(perm), data)] else wants
    ensures r.Remap? ==> v in sp0.t.abs
    ensures r.OutOfMemory? ==> |m.free| <= 2
    ensures r.Filled? ==> |m.free| <= |m'.free| + 3
  {
    var pa;
    wants' := wants;
    r, pa, m', sp' := MapFresh(m, root, v, perm, data, sp);
    if r.Filled? {
      OneMoreAdded(m0, sp0, wants, m, sp, m', sp', v, pa, perm, data);
      wants' := wants[v := Want(WithValid(perm), data)];
    } else {
      NoneMoreAdded(m0, sp0, wants, m, sp, m', sp');
    }
  }

  /** n zeroed pages from v on. */
  ghost function Zeros(v: nat, n: nat, flags: nat): (r: map<nat, Want<Page>>)
    ensures forall w :: w in r <==> v <= w < v + n
    ensures forall w :: w in r ==> r[w] == Want(flags, PageTable.Filled(0))
  {
    if n == 0 then map[] else Zeros(v, n - 1, flags)[v + n - 1 := Want(flags, PageTable.Filled(0))]
  }

  lemma ZerosStep(v: nat, a: nat, flags: nat)
    requires v <= a
    ensures Zeros(v, a + 1 - v, flags) == Zeros(v, a - v, flags)[a := Want(flags, PageTable.Filled(0))]
  {
  }

  /** Back to the mappings of sp, with the contents they had. */
  ghost predicate Restored(m: Phys, sp: Space, m': Phys, sp': Space) {
    Moves(m, sp, m', sp') && sp'.t.abs == sp.t.abs && sp'.lo == sp.lo && SameData(m.mem, m'.mem, sp.lo)
  }

  lemma UnmappedIsRestored(m: Phys, sp: Space, v: nat, n: nat, m': Phys, sp': Space)
    requires SpaceOk(m, sp) && Unmapped(m, sp, v, n, m', sp')
    requires forall w :: v <= w < v + n ==> w !in sp.t.abs
    ensures Restored(m, sp, m', sp')
  {
    assert Open(true);
    assert Minus(sp.t.abs, v, n) == sp.t.abs;
    InverseIsUnique(sp.t.abs, sp.lo, sp'.lo);
  }

  lemma InverseIsUnique(abs: map<nat, u64>, lo: map<nat, nat>, lo': map<nat, nat>)
    requires Inverse(abs, lo) && Inverse(abs, lo')
    ensures lo' == lo
  {
    forall p
      ensures p in lo <==> p in lo'
      ensures p in lo && p in lo' ==> lo[p] == lo'[p]
    {
      if p in lo {
        assert Pte2Pa(abs[lo[p]]) == p;
      }
      if p in lo' {
        assert Pte2Pa(abs[lo'[p]]) == p;
      }
    }
  }

  datatype GrowResult = Grown | NoRoom | GrowPanicked

  method Uvmalloc(m: Phys, root: nat, oldsz: nat, newsz: nat, xperm: nat, ghost sp: Space)
    returns (out: GrowResult, r: nat, m': Phys, ghost sp': Space)
    requires SpaceOk(m, sp) && root == sp.t.at[Root]
    requires newsz <= TRAPFRAME && WriteOrExec(xperm)
    ensures newsz < oldsz ==> out.Grown? && r == oldsz && m' == m && sp' == sp
    ensures newsz >= oldsz && out.Grown? ==>
              r == newsz && Growing(m, sp, Pages(oldsz), Pages(newsz), PTE_V + PTE_R + PTE_U + xperm, m', sp')
    ensures out.NoRoom? ==> r == 0 && Restored(m, sp, m', sp') && |m.free| < 3 * (Pages(newsz) - Pages(oldsz))
    ensures out.GrowPanicked? ==> exists w :: Pages(oldsz) <= w < Pages(newsz) && w in sp.t.abs
  {
    m', sp' := m, sp;
    if newsz < oldsz {
      return Grown, oldsz, m, sp;
    }
    var perm := PTE_R + PTE_U + xperm;
    UserFlags(xperm);
    PagesGrow(oldsz, newsz);
    out, m', sp' := GrowRun(m, root, Pages(oldsz), Pages(newsz), perm, sp);
    r := if out.Grown? then newsz else 0;
  }

  /** Zeroed pages first to a have been added, with the rest as it was. */
  ghost predicate Growing(m: Phys, sp: Space, first: nat, a: nat, flags: nat, m': Phys, sp': Space) {
    first <= a && forall k: bool {:trigger Inside(k)} :: Inside(k) ==>
                    Extends(m, sp, Zeros(first, a - first, flags), m', sp')
  }

  lemma NothingGrown(m: Phys, sp: Space, first: nat, flags: nat)
    requires SpaceOk(m, sp)
    ensures Growing(m, sp, first, first, flags, m, sp)
  {
    NothingAdded(m, sp);
  }

  /** PTE_W, PTE_X, both or neither. */
  predicate WriteOrExec(xperm: nat) { xperm <= PTE_W + PTE_X && xperm % PTE_W == 0 }

  lemma UserFlags(xperm: nat)
    requires WriteOrExec(xperm)
    ensures var perm := PTE_R + PTE_U + xperm;
            perm < 0x400 && perm / 2 % 8 != 0 && WithValid(perm) == PTE_V + perm
  {
  }

  lemma PagesGrow(oldsz: nat, newsz: nat)
    requires oldsz <= newsz <= TRAPFRAME
    ensures Pages(oldsz) <= Pages(newsz) <= USERVPN
  {
  }

  method GrowRun(m: Phys, root: nat, first: nat, last: nat, perm: nat, ghost sp: Space)
    returns (out: GrowResult, m': Phys, ghost sp': Space)
    requires SpaceOk(m, sp) && root == sp.t.at[Root]
    requires first <= last <= USERVPN && perm < 0x400 && perm / 2 % 8 != 0
    ensures out.Grown? ==> Growing(m, sp, first, last, WithValid(perm), m', sp')
    ensures out.NoRoom? ==> Restored(m, sp, m', sp') && |m.free| < 3 * (last - first)
    ensures out.GrowPanicked? ==> exists w :: first <= w < last && w in sp.t.abs
  {
    m', sp' := m, sp;
    NothingGrown(m, sp, first, WithValid(perm));
    for a := first to last
      invariant Growing(m, sp, first, a, WithValid(perm), m', sp')
      invariant |m.free| <= |m'.free| + 3 * (a - first)
    {
      out, m', sp' := GrowRound(m', root, first, a, perm, sp', m, sp);
      if !out.Grown? {
        return;
      }
    }
    out := Grown;
  }

  /** One round of the loop, which began with m0 and sp0. */
  method GrowRound(m: Phys, root: nat, first: nat, a: nat, perm: nat, ghost sp: Space, ghost m0: Phys, ghost sp0: Space)
    returns (out: GrowResult, m': Phys, ghost sp': Space)
    requires SpaceOk(m0, sp0) && root == sp0.t.at[Root]
    requires first <= a < USERVPN && perm < 0x400 && perm / 2 % 8 != 0
    requires Growing(m0, sp0, first, a, WithValid(perm), m, sp)
    ensures out.Grown? ==> Growing(m0, sp0, first, a + 1, WithValid(perm), m', sp') && |m.free| <= |m'.free| + 3
    ensures out.NoRoom? ==> Restored(m0, sp0, m', sp') && |m.free| <= 2
    ensures out.GrowPanicked? ==> a in sp0.t.abs
  {
    assert Inside(true);
    ghost var wants := Zeros(first, a - first, WithValid(perm));
    ghost var wants';
    var fr;
    ZerosStep(first, a, WithValid(perm));
    fr, m', sp', wants' := AddPage(m, root, a, perm, PageTable.Filled(0), sp, m0, sp0, wants);
    match fr
    case Filled =>
      out := Grown;
    case Remap =>
      out := GrowPanicked;
    case OutOfMemory =>
      m', sp' := UndoGrow(m', root, first, a, sp', m0, sp0, wants);
      out := NoRoom;
  }

  /** uvmalloc's retreat: pages first to a were added, and go again. */
  method UndoGrow(m: Phys, root: nat, first: nat, a: nat, ghost sp: Space, ghost m0: Phys, ghost sp0: Space,
                  ghost wants: map<nat, Want<Page>>)
    returns (m': Phys, ghost sp': Space)
    requires SpaceOk(m0, sp0) && Extends(m0, sp0, wants, m, sp) && root == sp0.t.at[Root]
    requires first <= a <= USERVPN && forall w :: w in wants <==> first <= w < a
    ensures Restored(m0, sp0, m', sp')
  {
    var r;
    assert Pages(first * PGSIZE) == first && Pages(a * PGSIZE) == a;
    r, m', sp' := Uvmdealloc(m, root, a * PGSIZE, first * PGSIZE, sp);
    AddedThenUnmapped(m0, sp0, wants, m, sp, first, a - first, m', sp');
    UnmappedIsRestored(m0, sp0, first, a - first, m', sp');
  }

  // ---------- uvmcopy ----------

  ghost predicate Separate(sp: Space, sp': Space) {
    forall p {:trigger Belongs(sp, p)} {:trigger Belongs(sp', p)} :: Belongs(sp, p) ==> !Belongs(sp', p)
  }

  /** What happens to one space leaves a separate one alone. */
  lemma OtherSpaceKept(m: Phys, sp: Space, m': Phys, sp': Space, other: Space)
    requires SpaceOk(m, other) && Separate(other, sp) && Moves(m, sp, m', sp')
    ensures SpaceOk(m', other) && Separate(other, sp') && SameData(m.mem, m'.mem, other.lo)
  {
    assert Shown(true);
    assert Open(true);
    forall p | Belongs(other, p)
      ensures SameAt(m.mem, m'.mem, p) && p !in m'.free && !Belongs(sp', p)
    {
      assert p in other.t.own ==> other.t.own[p] in other.t.at;
      assert !InPool(m, sp, p) && !InPool(m', sp', p);
    }
    forall p | p in other.t.own
      ensures SameAt(m.mem, m'.mem, p)
    {
      assert Belongs(other, p);
    }
    TreeFrame(m.mem, m'.mem, other.t);
    forall p | p in other.lo
      ensures SameAt(m.mem, m'.mem, p) && p !in m'.free
    {
      assert Belongs(other, p);
    }
    forall p | p in other.t.own
      ensures p !in m'.free
    {
      assert Belongs(other, p);
    }
  }

  /** The first n pages that abs maps, with their flags and contents. */
  ghost function Wanted<T>(mem: map<nat, T>, abs: map<nat, u64>, n: nat): map<nat, Want<T>> {
    map v | v in abs && v < n && Pte2Pa(abs[v]) in mem :: Want(PteFlags(abs[v]), mem[Pte2Pa(abs[v])])
  }

  lemma WantedStep<T>(mem: map<nat, T>, abs: map<nat, u64>, n: nat)
    ensures Wanted(mem, abs, n + 1) ==
            if n in abs && Pte2Pa(abs[n]) in mem
            then Wanted(mem, abs, n)[n := Want(PteFlags(abs[n]), mem[Pte2Pa(abs[n])])]
            else Wanted(mem, abs, n)
  {
  }

  datatype Source = Hole | Source(flags: nat, data: Page)

  /** uvmcopy's look at page v of the parent. */
  method ReadPage(m: Phys, root: nat, v: nat, ghost sp: Space) returns (r: Source)
    requires SpaceOk(m, sp) && root == sp.t.at[Root] && v < USERVPN
    ensures r.Hole? <==> v !in sp.t.abs
    ensures r.Source? ==> MapsTo(m.mem, sp.t.abs, v, Want(r.flags, r.data)) && Pte2Pa(sp.t.abs[v]) in sp.lo
    ensures r.Source? ==> r.flags < 0x400 && r.flags / 2 % 8 != 0 && WithValid(r.flags) == r.flags
  {
    assert Open(true);
    var w, m1;
    ghost var t1;
    var va := v * PGSIZE;
    assert va / PGSIZE == v && va < MAXVA;
    w, m1, t1 := Walk(m, root, va, false, sp.t);
    LookupIsAbs(m.mem, sp.t, v);
    if w.Absent? || !IsValid(m.mem[w.page][w.k]) {
      return Hole;
    }
    var pte := m.mem[w.page][w.k];
    assert pte == sp.t.abs[v] && IsLeaf(pte);
    assert Pte2Pa(sp.t.abs[v]) in sp.lo;
    FlagBits(pte);
    r := Source(PteFlags(pte), m.mem[Pte2Pa(pte)]);
  }

  lemma FlagBits(pte: u64)
    requires IsValid(pte) && IsLeaf(pte)
    ensures PteFlags(pte) / 2 % 8 != 0 && WithValid(PteFlags(pte)) == PteFlags(pte)
  {
    PteBits(pte / 0x400, pte % 0x400);
  }
}
