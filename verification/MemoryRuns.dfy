/** Runs of user memory: any mix of eager and lazy sbrk, shrinking, page faults, fork and exit,
    by any number of processes. */
module MemoryRuns {
  import opened FlatMemory
  import opened PageTable
  import opened ProcCalls
  import opened ProcPages
  import opened Seals
  import opened UserMemory
  import opened Vm

  type i32 = x: int | -0x8000_0000 <= x < 0x8000_0000

  // ---------- growproc, sbrk, vmfault ----------

  const USERFLAGS: nat := PTE_V + PTE_R + PTE_W + PTE_U

  lemma NothingDone(m: Phys, p: Proc, sp: Space)
    requires ProcOk(m, p, sp)
    ensures Restored(m, sp, m, sp) && Swap(m, Owner(p, sp), m, Owner(p, sp))
  {
    assert Restored(m, sp, m, sp) by {
      assert Open(true);
    }
    MovesIsSwap(m, p, sp, m, p, sp);
  }

  lemma GrownWithin(abs: map<nat, u64>, p: Proc, p': Proc, mem: Memory, abs': map<nat, u64>)
    requires MappedWithin(abs, p) && p.sz <= p'.sz <= TRAPFRAME && p'.tf == p.tf
    requires Adds(abs, Zeros(Pages(p.sz), Pages(p'.sz) - Pages(p.sz), USERFLAGS), mem, abs')
    ensures MappedWithin(abs', p')
  {
    assert TRAPFRAMEVPN in abs && TRAMPOLINEVPN in abs;
  }

  lemma ShrunkWithin(abs: map<nat, u64>, p: Proc, p': Proc)
    requires MappedWithin(abs, p) && p'.sz <= p.sz && p'.tf == p.tf
    ensures Pages(p'.sz) <= Pages(p.sz)
    ensures MappedWithin(Minus(abs, Pages(p'.sz), Pages(p.sz) - Pages(p'.sz)), p')
  {
  }

  /** The memory f at size sz, with zeroed pages first to last besides. */
  ghost function GrownTo(f: Flat, first: nat, last: nat, sz: nat): Flat
    requires first <= last
  {
    Flat(sz, f.pages + Zeros(first, last - first, USERFLAGS), f.frame)
  }

  /** The memory f cut down to size sz. */
  ghost function ShrunkTo(f: Flat, sz: nat): Flat {
    Flat(sz, map v | v in f.pages && v < Pages(sz) :: f.pages[v], f.frame)
  }

  /** The memory after sbrk by n. */
  ghost function Resized(f: Flat, n: int, eager: bool): Flat {
    var sz := if f.sz + n >= 0 then f.sz + n else f.sz;
    if n < 0 then ShrunkTo(f, sz)
    else if eager && Pages(f.sz) <= Pages(sz) then GrownTo(f, Pages(f.sz), Pages(sz), sz)
    else f.(sz := sz)
  }

  /** Shrinking by n from sz to sz', with all pages below sz. */
  lemma ResizedDown(f: Flat, n: int, sz: nat, sz': nat, m': Phys, o': Owner)
    requires f.sz == sz && n <= 0 && sz' == (if sz + n >= 0 then sz + n else sz)
    requires forall v {:trigger v in f.pages} :: v in f.pages ==> v < Pages(sz)
    requires Pages(sz') <= Pages(sz) && FlatOf(m', o').sz == sz'
    requires Lost(f, Pages(sz'), Pages(sz) - Pages(sz'), FlatOf(m', o'))
    ensures Sees(m', o', Resized(f, n, true))
  {
    assert Beneath(true);
    var g := FlatOf(m', o');
    if n < 0 {
      assert g.pages == map v | v in f.pages && v < Pages(sz') :: f.pages[v];
    } else {
      assert g.pages == f.pages + Zeros(Pages(sz), 0, USERFLAGS);
    }
  }

  lemma GrowingFlat(m: Phys, p: Proc, sp: Space, first: nat, last: nat, m': Phys, p': Proc, sp': Space)
    requires ProcOk(m, p, sp) && p'.tf == p.tf && Growing(m, sp, first, last, USERFLAGS, m', sp')
    ensures Sees(m', Owner(p', sp'), GrownTo(FlatOf(m, Owner(p, sp)), first, last, p'.sz))
  {
    assert Inside(true);
    ExtendedFlat(m, p, sp, Zeros(first, last - first, USERFLAGS), m', p', sp');
    assert Beneath(true);
  }

  lemma ShrunkFlat(m: Phys, p: Proc, sp: Space, n: int, m': Phys, p': Proc, sp': Space)
    requires ProcOk(m, p, sp) && n <= 0 && p' == p.(sz := if p.sz + n >= 0 then p.sz + n else p.sz)
    requires Pages(p'.sz) <= Pages(p.sz) && Unmapped(m, sp, Pages(p'.sz), Pages(p.sz) - Pages(p'.sz), m', sp')
    ensures Sees(m', Owner(p', sp'), Resized(FlatOf(m, Owner(p, sp)), n, true))
  {
    UnmappedFlat(m, p, sp, Pages(p'.sz), Pages(p.sz) - Pages(p'.sz), m', p', sp');
    ResizedDown(FlatOf(m, Owner(p, sp)), n, p.sz, p'.sz, m', Owner(p', sp'));
  }

  /** What growproc by n does: growing adds zeroed pages or changes nothing; shrinking, and asking to
      shrink below zero, always succeeds. */
  ghost predicate GrewOpen(m: Phys, p: Proc, sp: Space, n: int, ok: bool, m': Phys, p': Proc, sp': Space) {
    && (!ok ==> p' == p && Restored(m, sp, m', sp'))
    && (ok ==> p' == p.(sz := if p.sz + n >= 0 then p.sz + n else p.sz))
    && (n > 0 && ok ==> Growing(m, sp, Pages(p.sz), Pages(p'.sz), USERFLAGS, m', sp'))
    && (n <= 0 ==> && ok && Pages(p'.sz) <= Pages(p.sz)
                   && Unmapped(m, sp, Pages(p'.sz), Pages(p.sz) - Pages(p'.sz), m', sp'))
  }

  /** The same, sealed. */
  ghost predicate Grew(m: Phys, p: Proc, sp: Space, n: int, ok: bool, m': Phys, p': Proc, sp': Space) {
    forall k: bool {:trigger Beneath(k)} :: Beneath(k) ==> GrewOpen(m, p, sp, n, ok, m', p', sp')
  }

  lemma GrewUp(m: Phys, p: Proc, sp: Space, n: nat, m': Phys, p': Proc, sp': Space)
    requires ProcOk(m, p, sp) && n > 0 && p' == p.(sz := p.sz + n) && p'.sz <= TRAPFRAME
    requires Growing(m, sp, Pages(p.sz), Pages(p'.sz), USERFLAGS, m', sp')
    ensures Grew(m, p, sp, n, true, m', p', sp') && Swap(m, Owner(p, sp), m', Owner(p', sp'))
  {
    assert Swap(m, Owner(p, sp), m', Owner(p', sp')) by {
      assert Inside(true);
      GrownWithin(sp.t.abs, p, p', m'.mem, sp'.t.abs);
      MovesIsSwap(m, p, sp, m', p', sp');
    }
  }

  lemma GrownFlat(m: Phys, p: Proc, sp: Space, n: nat, m': Phys, p': Proc, sp': Space)
    requires ProcOk(m, p, sp) && p'.sz == p.sz + n && p'.tf == p.tf
    requires Growing(m, sp, Pages(p.sz), Pages(p'.sz), USERFLAGS, m', sp')
    ensures Sees(m', Owner(p', sp'), Resized(FlatOf(m, Owner(p, sp)), n, true))
  {
    GrowingFlat(m, p, sp, Pages(p.sz), Pages(p'.sz), m', p', sp');
  }

  lemma GrewNot(m: Phys, p: Proc, sp: Space, n: nat, m': Phys, sp': Space)
    requires ProcOk(m, p, sp) && n > 0 && Restored(m, sp, m', sp')
    ensures Grew(m, p, sp, n, false, m', p, sp') && Swap(m, Owner(p, sp), m', Owner(p, sp'))
  {
    MovesIsSwap(m, p, sp, m', p, sp');
  }

  lemma GrewDown(m: Phys, p: Proc, sp: Space, n: int, m': Phys, p': Proc, sp': Space)
    requires ProcOk(m, p, sp) && n <= 0 && p' == p.(sz := if p.sz + n >= 0 then p.sz + n else p.sz)
    requires Pages(p'.sz) <= Pages(p.sz) && Unmapped(m, sp, Pages(p'.sz), Pages(p.sz) - Pages(p'.sz), m', sp')
    ensures Grew(m, p, sp, n, true, m', p', sp') && Swap(m, Owner(p, sp), m', Owner(p', sp'))
  {
    ShrunkWithin(sp.t.abs, p, p');
    MovesIsSwap(m, p, sp, m', p', sp');
  }

  method Growproc(m: Phys, p: Proc, n: i32, ghost sp: Space)
    returns (ok: bool, panicked: bool, p': Proc, m': Phys, ghost sp': Space)
    requires ProcOk(m, p, sp)
    ensures !panicked && Swap(m, Owner(p, sp), m', Owner(p', sp')) && Grew(m, p, sp, n, ok, m', p', sp')
    ensures !ok ==> n > 0 && (p.sz + n > TRAPFRAME || |m.free| < 3 * (Pages(p.sz + n) - Pages(p.sz)))
    ensures n > 0 && p.sz + n > TRAPFRAME ==> !ok
    ensures p' == if !ok then p else p.(sz := if p.sz + n >= 0 then p.sz + n else p.sz)
    ensures var f := FlatOf(m, Owner(p, sp)); Sees(m', Owner(p', sp'), if ok then Resized(f, n, true) else f)
  {
    ok, panicked, p', m', sp' := true, false, p, m, sp;
    if n > 0 {
      ok, panicked, p', m', sp' := Grow(m, p, n, sp);
    } else {
      p', m', sp' := Shrink(m, p, n, sp);
    }
  }

  method Shrink(m: Phys, p: Proc, n: i32, ghost sp: Space) returns (p': Proc, m': Phys, ghost sp': Space)
    requires ProcOk(m, p, sp) && n <= 0
    ensures Swap(m, Owner(p, sp), m', Owner(p', sp'))
    ensures p' == p.(sz := if p.sz + n >= 0 then p.sz + n else p.sz) && Grew(m, p, sp, n, true, m', p', sp')
    ensures Sees(m', Owner(p', sp'), Resized(FlatOf(m, Owner(p, sp)), n, true))
  {
    var sz := p.sz;
    m', sp' := m, sp;
    NothingUnmapped(m, sp, Pages(sz));
    if n < 0 {
      var target := (p.sz + n) % 0x1_0000_0000_0000_0000;
      sz, m', sp' := Uvmdealloc(m, p.root, p.sz, target, sp);
    }
    p' := p.(sz := sz);
    ShrunkFlat(m, p, sp, n, m', p', sp');
    GrewDown(m, p, sp, n, m', p', sp');
  }

  method Grow(m: Phys, p: Proc, n: nat, ghost sp: Space)
    returns (ok: bool, panicked: bool, p': Proc, m': Phys, ghost sp': Space)
    requires ProcOk(m, p, sp) && n > 0
    ensures !panicked && Swap(m, Owner(p, sp), m', Owner(p', sp')) && Grew(m, p, sp, n, ok, m', p', sp')
    ensures p' == if ok then p.(sz := p.sz + n) else p
    ensures p.sz + n > TRAPFRAME ==> !ok
    ensures !ok ==> p.sz + n > TRAPFRAME || |m.free| < 3 * (Pages(p.sz + n) - Pages(p.sz))
    ensures var f := FlatOf(m, Owner(p, sp)); Sees(m', Owner(p', sp'), if ok then Resized(f, n, true) else f)
  {
    ok, panicked, p', m', sp' := false, false, p, m, sp;
    if p.sz + n > TRAPFRAME {
      NothingDone(m, p, sp);
    } else {
      ok, panicked, p', m', sp' := GrowWithin(m, p, n, sp);
    }
  }

  method GrowWithin(m: Phys, p: Proc, n: nat, ghost sp: Space)
    returns (ok: bool, panicked: bool, p': Proc, m': Phys, ghost sp': Space)
    requires ProcOk(m, p, sp) && n > 0 && p.sz + n <= TRAPFRAME
    ensures !panicked && Swap(m, Owner(p, sp), m', Owner(p', sp')) && Grew(m, p, sp, n, ok, m', p', sp')
    ensures p' == if ok then p.(sz := p.sz + n) else p
    ensures !ok ==> |m.free| < 3 * (Pages(p.sz + n) - Pages(p.sz))
    ensures var f := FlatOf(m, Owner(p, sp)); Sees(m', Owner(p', sp'), if ok then Resized(f, n, true) else f)
  {
    var out, sz;
    p' := p;
    out, sz, m', sp' := Uvmalloc(m, p.root, p.sz, p.sz + n, PTE_W, sp);
    ok, panicked := out.Grown?, out.GrowPanicked?;
    if ok {
      p' := p.(sz := sz);
      GrewUp(m, p, sp, n, m', p', sp');
      GrownFlat(m, p, sp, n, m', p', sp');
    } else if out.NoRoom? {
      RestoredFlat(m, p, sp, m', sp');
      GrewNot(m, p, sp, n, m', sp');
    }
  }

  /** sys_sbrk. The result -1 is failure; otherwise it is the old size. */
  method SysSbrk(m: Phys, p: Proc, n: i32, eager: bool, ghost sp: Space)
    returns (r: int, panicked: bool, p': Proc, m': Phys, ghost sp': Space)
    requires ProcOk(m, p, sp)
    ensures !panicked && Swap(m, Owner(p, sp), m', Owner(p', sp'))
    ensures r == -1 || r == p.sz
    ensures r == -1 ==> n > 0 && (p.sz + n > TRAPFRAME || |m.free| < 3 * (Pages(p.sz + n) - Pages(p.sz)))
    ensures n > 0 && p.sz + n > TRAPFRAME ==> r == -1
    ensures p' == if r == -1 then p else p.(sz := if p.sz + n >= 0 then p.sz + n else p.sz)
    ensures !eager && n >= 0 ==> m' == m && sp' == sp && (r == -1 <==> p.sz + n > TRAPFRAME)
    ensures eager || n < 0 ==> Grew(m, p, sp, n, r != -1, m', p', sp')
    ensures var f := FlatOf(m, Owner(p, sp));
            Sees(m', Owner(p', sp'), if r == -1 then f else Resized(f, n, eager))
  {
    r, panicked, p', m', sp' := p.sz, false, p, m, sp;
    if eager || n < 0 {
      var ok;
      ok, panicked, p', m', sp' := Growproc(m, p, n, sp);
      ShrinkingIsEager(FlatOf(m, Owner(p, sp)), n, eager);
      if !ok {
        r := -1;
      }
    } else {
      r, p' := GrowLazily(m, p, n, sp);
    }
  }

  lemma ShrinkingIsEager(f: Flat, n: int, eager: bool)
    requires eager || n < 0
    ensures Resized(f, n, eager) == Resized(f, n, true)
  {
  }

  /** The pages come at the first fault. */
  method GrowLazily(m: Phys, p: Proc, n: nat, ghost sp: Space) returns (r: int, p': Proc)
    requires ProcOk(m, p, sp) && n < 0x8000_0000
    ensures Swap(m, Owner(p, sp), m, Owner(p', sp)) && Restored(m, sp, m, sp)
    ensures r == if p.sz + n > TRAPFRAME then -1 else p.sz
    ensures p' == if r == -1 then p else p.(sz := p.sz + n)
    ensures var f := FlatOf(m, Owner(p, sp));
            Sees(m, Owner(p', sp), if r == -1 then f else Resized(f, n, false))
  {
    NothingDone(m, p, sp);
    if (p.sz + n) % 0x1_0000_0000_0000_0000 < p.sz || p.sz + n > TRAPFRAME {
      return -1, p;
    }
    r, p' := p.sz, p.(sz := p.sz + n);
    MovesIsSwap(m, p, sp, m, p', sp);
  }

  /** ismapped. The panic is walk's. */
  method Ismapped(m: Phys, root: nat, va: nat, ghost sp: Space) returns (r: bool, panicked: bool)
    requires SpaceOk(m, sp) && root == sp.t.at[Root]
    ensures panicked <==> va >= MAXVA
    ensures r <==> va < MAXVA && va / PGSIZE in sp.t.abs
  {
    assert PhysOk(m) && TreeOk(m.mem, sp.t) && Apart(sp.t, m.free) by {
      assert Open(true);
    }
    var w, m1;
    ghost var t1;
    w, m1, t1 := Walk(m, root, va, false, sp.t);
    r, panicked := false, w.Panicked?;
    if !panicked {
      LookupIsAbs(m.mem, sp.t, va / PGSIZE);
      r := w.Slot? && IsValid(m.mem[w.page][w.k]);
    }
  }

  /** The memory f with a zeroed page for address va. */
  ghost function WithPage(f: Flat, va: nat): Flat {
    f.(pages := f.pages + map[va / PGSIZE := Want(USERFLAGS, PageTable.Filled(0))])
  }

  lemma GainedOne(f: Flat, va: nat, m': Phys, o': Owner)
    requires FlatOf(m', o').sz == f.sz
    requires Gained(f, map[va / PGSIZE := Want(USERFLAGS, PageTable.Filled(0))], FlatOf(m', o'))
    ensures Sees(m', o', WithPage(f, va))
  {
    assert Beneath(true);
  }

  lemma FaultSeen(m: Phys, p: Proc, sp: Space, va: nat)
    requires ProcOk(m, p, sp)
    ensures va < p.sz ==> (va / PGSIZE in FlatOf(m, Owner(p, sp)).pages <==> va / PGSIZE in sp.t.abs)
  {
    if va < p.sz && va / PGSIZE in sp.t.abs {
      assert va / PGSIZE < USERVPN;
      UserPage(m, sp, va / PGSIZE);
    }
  }

  /** vmfault: the page of va, zeroed, if va lies below sz and is not mapped yet and there is
      memory. */
  method Vmfault(m: Phys, p: Proc, va: nat, ghost sp: Space)
    returns (r: nat, panicked: bool, m': Phys, ghost sp': Space)
    requires ProcOk(m, p, sp)
    ensures !panicked && Swap(m, Owner(p, sp), m', Owner(p, sp'))
    ensures va >= p.sz || va / PGSIZE in sp.t.abs ==> r == 0
    ensures r == 0 ==> Restored(m, sp, m', sp') && (va >= p.sz || va / PGSIZE in sp.t.abs || |m.free| <= 2)
    ensures r != 0 ==> && Extends(m, sp, map[va / PGSIZE := Want(USERFLAGS, PageTable.Filled(0))], m', sp')
                       && r == Pte2Pa(sp'.t.abs[va / PGSIZE])
    ensures var f := FlatOf(m, Owner(p, sp));
            && (va >= f.sz || va / PGSIZE in f.pages ==> r == 0)
            && Sees(m', Owner(p, sp'), if r == 0 then f else WithPage(f, va))
  {
    r, panicked, m', sp' := 0, false, m, sp;
    NothingDone(m, p, sp);
    FaultSeen(m, p, sp, va);
    if va >= p.sz {
      return;
    }
    var mapped;
    mapped, panicked := Ismapped(m, p.root, va, sp);
    if mapped {
      return;
    }
    var fr, pa;
    fr, pa, m', sp' := MapFresh(m, p.root, va / PGSIZE, PTE_W + PTE_U + PTE_R, PageTable.Filled(0), sp);
    panicked := fr.Remap?;
    if fr.Filled? {
      NothingAdded(m, sp);
      OneMoreAdded(m, sp, map[], m, sp, m', sp', va / PGSIZE, pa, PTE_W + PTE_U + PTE_R, PageTable.Filled(0));
      r := pa;
      ExtendedFlat(m, p, sp, map[va / PGSIZE := Want(USERFLAGS, PageTable.Filled(0))], m', p, sp');
      GainedOne(FlatOf(m, Owner(p, sp)), va, m', Owner(p, sp'));
    } else {
      RestoredFlat(m, p, sp, m', sp');
    }
    MovesIsSwap(m, p, sp, m', p, sp');
  }

  // ---------- many processes ----------

  /** Every process is whole, and no page is held twice. */
  ghost predicate Whole(m: Phys, owners: map<nat, Owner>) {
    && PhysOk(m)
    && (forall i {:trigger owners[i]} :: i in owners ==> owners[i].Owner? && OwnerOk(m, owners[i]))
    && (forall i, j {:trigger owners[i], owners[j]} :: i in owners && j in owners && i != j ==>
          OwnApart(owners[i], owners[j]))
  }

  /** The same, sealed: see Seals. */
  ghost predicate SysOk(m: Phys, owners: map<nat, Owner>) {
    forall k: bool {:trigger Inside(k)} :: Inside(k) ==> Whole(m, owners)
  }

  lemma SysPhys(m: Phys, owners: map<nat, Owner>)
    requires SysOk(m, owners)
    ensures PhysOk(m)
  {
    assert Inside(true);
  }

  lemma SysProc(m: Phys, owners: map<nat, Owner>, i: nat)
    requires SysOk(m, owners) && i in owners
    ensures owners[i].Owner? && ProcOk(m, owners[i].p, owners[i].sp)
  {
    assert Inside(true);
  }

  /** Page q is free or held by a process. */
  ghost predicate Accounted(m: Phys, owners: map<nat, Owner>, q: nat) {
    q in m.free || exists i :: i in owners && Owns(owners[i], q)
  }

  /** From m to m' no page was lost or gained, and the other pages were left alone. */
  ghost predicate SysStep(m: Phys, owners: map<nat, Owner>, m': Phys, owners': map<nat, Owner>) {
    && SysOk(m', owners') && m'.end == m.end && m'.mem.Keys == m.mem.Keys
    && (forall q {:trigger Accounted(m', owners', q)} :: Accounted(m', owners', q) <==> Accounted(m, owners, q))
    && (forall q {:trigger SameAt(m.mem, m'.mem, q)} :: q in m.mem && !Accounted(m, owners, q) ==>
          SameAt(m.mem, m'.mem, q))
  }

  ghost function At(owners: map<nat, Owner>, i: nat): Owner {
    if i in owners then owners[i] else Nobody
  }

  ghost function Put(owners: map<nat, Owner>, i: nat, o: Owner): map<nat, Owner> {
    if o.Nobody? then owners - {i} else owners[i := o]
  }

  lemma SysStepTransitive(m0: Phys, o0: map<nat, Owner>, m1: Phys, o1: map<nat, Owner>, m2: Phys, o2: map<nat, Owner>)
    requires SysStep(m0, o0, m1, o1) && SysStep(m1, o1, m2, o2)
    ensures SysStep(m0, o0, m2, o2)
  {
    forall q
      ensures Accounted(m2, o2, q) <==> Accounted(m0, o0, q)
    {
      assert Accounted(m1, o1, q) <==> Accounted(m0, o0, q);
    }
    forall q | q in m0.mem && !Accounted(m0, o0, q)
      ensures SameAt(m0.mem, m2.mem, q)
    {
      assert SameAt(m0.mem, m1.mem, q) && !Accounted(m1, o1, q) && SameAt(m1.mem, m2.mem, q);
    }
  }

  /** One process's doing, as a step of the whole: the invariant, page conservation, and the
      memory of every other process. */
  lemma SwapIsStep(m: Phys, owners: map<nat, Owner>, i: nat, m': Phys, o: Owner)
    requires SysOk(m, owners) && Swap(m, At(owners, i), m', o)
    ensures SysStep(m, owners, m', Put(owners, i, o))
    ensures forall j, q :: j in owners && j != i && Owns(owners[j], q) ==> SameAt(m.mem, m'.mem, q)
  {
    var owners' := Put(owners, i, o);
    SwapIsWhole(m, owners, i, m', o);
    forall q
      ensures Accounted(m', owners', q) <==> Accounted(m, owners, q)
    {
      AccountedBut(m, owners, i, q);
      PutAccounted(m', owners, i, o, q);
      assert Has(m', o, q) <==> Has(m, At(owners, i), q);
    }
    forall q | q in m.mem && !Accounted(m, owners, q)
      ensures SameAt(m.mem, m'.mem, q)
    {
      AccountedBut(m, owners, i, q);
      assert !Has(m, At(owners, i), q);
    }
  }

  lemma SwapIsWhole(m: Phys, owners: map<nat, Owner>, i: nat, m': Phys, o: Owner)
    requires SysOk(m, owners) && Swap(m, At(owners, i), m', o)
    ensures SysOk(m', Put(owners, i, o))
    ensures forall j, q :: j in owners && j != i && Owns(owners[j], q) ==> SameAt(m.mem, m'.mem, q)
  {
    forall j | j in owners && j != i
      ensures owners[j].Owner? && OwnerOk(m', owners[j]) && OwnApart(owners[j], o)
      ensures forall q :: Owns(owners[j], q) ==> SameAt(m.mem, m'.mem, q)
    {
      NeighbourKept(m, owners, i, m', o, j);
    }
    assert Inside(true);
    OwnersStayApart(owners, i, o);
  }

  lemma NeighbourKept(m: Phys, owners: map<nat, Owner>, i: nat, m': Phys, o: Owner, j: nat)
    requires SysOk(m, owners) && Swap(m, At(owners, i), m', o) && j in owners && j != i
    ensures owners[j].Owner? && OwnerOk(m', owners[j]) && OwnApart(owners[j], o)
    ensures forall q :: Owns(owners[j], q) ==> SameAt(m.mem, m'.mem, q)
  {
    assert Inside(true);
    if i in owners {
      assert OwnApart(owners[j], owners[i]);
    }
    OtherOwnerKept(m, At(owners, i), m', o, owners[j]);
  }

  lemma OwnersStayApart(owners: map<nat, Owner>, i: nat, o: Owner)
    requires forall j, k {:trigger owners[j], owners[k]} :: j in owners && k in owners && j != k ==>
               OwnApart(owners[j], owners[k])
    requires forall j {:trigger owners[j]} :: j in owners && j != i ==> OwnApart(owners[j], o)
    ensures var os := Put(owners, i, o); forall j, k {:trigger os[j], os[k]} :: j in os && k in os && j != k ==>
              OwnApart(os[j], os[k])
  {
    var os := Put(owners, i, o);
    forall j, k | j in os && k in os && j != k
      ensures OwnApart(os[j], os[k])
    {
      if j == i {
        assert OwnApart(owners[k], o);
      } else if k == i {
        assert OwnApart(owners[j], o);
      } else {
        assert OwnApart(owners[j], owners[k]);
      }
    }
  }

  /** Held by a process other than i. */
  ghost predicate Elsewhere(owners: map<nat, Owner>, i: nat, q: nat) {
    exists j :: j in owners && j != i && Owns(owners[j], q)
  }

  lemma AccountedBut(m: Phys, owners: map<nat, Owner>, i: nat, q: nat)
    ensures Accounted(m, owners, q) <==> Has(m, At(owners, i), q) || Elsewhere(owners, i, q)
  {
    if i in owners && Owns(owners[i], q) {
      assert Accounted(m, owners, q);
    }
  }

  lemma PutAccounted(m: Phys, owners: map<nat, Owner>, i: nat, o: Owner, q: nat)
    ensures Accounted(m, Put(owners, i, o), q) <==> Has(m, o, q) || Elsewhere(owners, i, q)
  {
    var os := Put(owners, i, o);
    if o.Owner? && Owns(o, q) {
      assert i in os && Owns(os[i], q);
    }
    if Elsewhere(owners, i, q) {
      var j :| j in owners && j != i && Owns(owners[j], q);
      assert j in os && Owns(os[j], q);
    }
  }

  // ---------- runs ----------

  /** Spawn is what userinit does for the first process, and Store a user program's change of a
      page of its memory. */
  datatype Call = Spawn(child: nat) | Fork(pid: nat, child: nat) | Exit(pid: nat)
                | Sbrk(pid: nat, n: i32, eager: bool) | Fault(pid: nat, va: nat)
                | Store(pid: nat, v: nat, data: Page)

  datatype Outcome = Refused | Failed | Ok(r: int)

  ghost predicate Matches(procs: map<nat, Proc>, owners: map<nat, Owner>) {
    procs.Keys == owners.Keys &&
    forall i {:trigger owners[i]} :: i in owners ==> owners[i].Owner? && owners[i].p == procs[i]
  }

  lemma NothingSpent(m: Phys, owners: map<nat, Owner>, m': Phys)
    requires SysOk(m, owners) && Unspent(m, m')
    ensures SysStep(m, owners, m', owners)
  {
    var i :| i !in owners by {
      Unused(owners.Keys);
    }
    forall q
      ensures Has(m', Nobody, q) <==> Has(m, Nobody, q)
    {
    }
    SwapIsStep(m, owners, i, m', Nobody);
    assert Put(owners, i, Nobody) == owners;
  }

  lemma StandStill(m: Phys, owners: map<nat, Owner>)
    requires SysOk(m, owners)
    ensures SysStep(m, owners, m, owners)
  {
    SysPhys(m, owners);
    NothingSpent(m, owners, m);
  }

  lemma {:induction false} Unused(s: set<nat>)
    ensures exists i: nat :: i !in s
  {
    var bound := Bound(s);
    assert bound !in s;
  }

  ghost function Bound(s: set<nat>): (b: nat)
    ensures forall i :: i in s ==> i < b
  {
    if s == {} then 0 else
      var x :| x in s;
      var b := Bound(s - {x});
      assert forall i :: i in s ==> i == x || i in s - {x};
      if b > x then b else x + 1
  }

  // ---------- what each process sees ----------

  ghost function Flats(m: Phys, owners: map<nat, Owner>): map<nat, Flat> {
    map i | i in owners :: FlatOf(m, owners[i])
  }

  /** A page that the user may write. */
  predicate Writable(flags: nat) { flags / PTE_W % 2 == 1 && flags / PTE_U % 2 == 1 }

  /** What a call may do to the memories of the processes, each of which is its own: Failed is
      want of memory, Refused that there is no such process or that the slot is taken. */
  ghost predicate Leads(fs: map<nat, Flat>, call: Call, out: Outcome, fs': map<nat, Flat>) {
    match call
    case Spawn(child) =>
      if child in fs then out == Refused && fs' == fs
      else (out == Failed && fs' == fs) || (out == Ok(0) && exists frame :: fs' == fs[child := Flat(0, map[], frame)])
    case Fork(pid, child) =>
      if pid !in fs || child in fs then out == Refused && fs' == fs
      else || (out == Failed && fs' == fs)
           || (out == Ok(0) && fs' == fs[child := fs[pid].(frame := ChildFrame(fs[pid].frame))])
    case Exit(pid) =>
      if pid !in fs then out == Refused && fs' == fs else out == Ok(0) && fs' == fs - {pid}
    case Sbrk(pid, n, eager) =>
      if pid !in fs then out == Refused && fs' == fs
      else if n > 0 && fs[pid].sz + n > TRAPFRAME then out == Failed && fs' == fs
      else || (out == Failed && fs' == fs && n > 0 && eager)
           || (out == Ok(fs[pid].sz) && fs' == fs[pid := Resized(fs[pid], n, eager)])
    case Fault(pid, va) =>
      if pid !in fs then out == Refused && fs' == fs
      else if va >= fs[pid].sz || va / PGSIZE in fs[pid].pages then out == Failed && fs' == fs
      else || (out == Failed && fs' == fs)
           || (out.Ok? && out.r > 0 && fs' == fs[pid := WithPage(fs[pid], va)])
    case Store(pid, v, data) =>
      if pid !in fs then out == Refused && fs' == fs
      else if v !in fs[pid].pages || !Writable(fs[pid].pages[v].flags) then out == Failed && fs' == fs
      else out == Ok(0) && fs' == fs[pid := fs[pid].(pages := fs[pid].pages[v := Want(fs[pid].pages[v].flags, data)])]
  }

  /** One process's doing leaves the memory of every other as it was. */
  lemma FlatsPut(m: Phys, owners: map<nat, Owner>, i: nat, m': Phys, o: Owner)
    requires SysOk(m, owners) && Swap(m, At(owners, i), m', o)
    ensures Flats(m', Put(owners, i, o)) ==
            if o.Nobody? then Flats(m, owners) - {i} else Flats(m, owners)[i := FlatOf(m', o)]
  {
    forall j | j in owners && j != i
      ensures FlatOf(m', owners[j]) == FlatOf(m, owners[j])
    {
      NeighbourKept(m, owners, i, m', o, j);
      SysProc(m, owners, j);
      FlatKept(m, owners[j], m');
    }
  }

  lemma FlatsUnspent(m: Phys, owners: map<nat, Owner>, m': Phys)
    requires SysOk(m, owners) && Unspent(m, m')
    ensures Flats(m', owners) == Flats(m, owners)
  {
    forall j | j in owners
      ensures FlatOf(m', owners[j]) == FlatOf(m, owners[j])
    {
      SysProc(m, owners, j);
      forall q | Owns(owners[j], q)
        ensures SameAt(m.mem, m'.mem, q)
      {
        OwnedIsUsed(m, owners[j], q);
      }
      FlatKept(m, owners[j], m');
    }
  }

  lemma OwnedIsUsed(m: Phys, o: Owner, q: nat)
    requires o.Owner? && ProcOk(m, o.p, o.sp) && Owns(o, q)
    ensures q in m.mem && q !in m.free
  {
    assert Open(true);
  }

  lemma FlatAt(m: Phys, owners: map<nat, Owner>, procs: map<nat, Proc>, i: nat)
    requires SysOk(m, owners) && Matches(procs, owners) && i in procs
    ensures i in owners && owners[i].Owner? && owners[i].p == procs[i] && ProcOk(m, procs[i], owners[i].sp)
    ensures i in Flats(m, owners) && Flats(m, owners)[i] == FlatOf(m, owners[i])
    ensures Flats(m, owners)[i].sz == procs[i].sz
  {
    SysProc(m, owners, i);
  }

  // ---------- the calls as steps of the whole ----------

  /** Any call at any time: a slot that is taken, or no such process, included. */
  method Step(m: Phys, procs: map<nat, Proc>, call: Call, tramp: nat, ghost owners: map<nat, Owner>)
    returns (out: Outcome, panicked: bool, m': Phys, procs': map<nat, Proc>, ghost owners': map<nat, Owner>)
    requires SysOk(m, owners) && Matches(procs, owners) && IsPageAddr(tramp) && tramp + PGSIZE <= MAXPA
    ensures !panicked && SysStep(m, owners, m', owners') && Matches(procs', owners')
    ensures Leads(Flats(m, owners), call, out, Flats(m', owners'))
  {
    panicked := false;
    match call
    case Spawn(child) =>
      out, m', procs', owners' := Birth(m, procs, child, tramp, owners);
    case Fork(pid, child) =>
      out, m', procs', owners' := ForkStep(m, procs, pid, child, tramp, owners);
    case Exit(pid) =>
      out, panicked, m', procs', owners' := ExitStep(m, procs, pid, owners);
    case Sbrk(pid, n, eager) =>
      out, panicked, m', procs', owners' := SbrkStep(m, procs, pid, n, eager, owners);
    case Fault(pid, va) =>
      out, panicked, m', procs', owners' := FaultStep(m, procs, pid, va, owners);
    case Store(pid, v, data) =>
      out, m' := StoreStep(m, procs, pid, v, data, owners);
      procs', owners' := procs, owners;
  }

  method Birth(m: Phys, procs: map<nat, Proc>, child: nat, tramp: nat, ghost owners: map<nat, Owner>)
    returns (out: Outcome, m': Phys, procs': map<nat, Proc>, ghost owners': map<nat, Owner>)
    requires SysOk(m, owners) && Matches(procs, owners) && IsPageAddr(tramp) && tramp + PGSIZE <= MAXPA
    ensures SysStep(m, owners, m', owners') && Matches(procs', owners')
    ensures Leads(Flats(m, owners), Spawn(child), out, Flats(m', owners')) && (out == Failed ==> |m.free| <= 5)
  {
    m', procs', owners' := m, procs, owners;
    StandStill(m, owners);
    if child in procs {
      return Refused, m', procs', owners';
    }
    var ok, p;
    ghost var sp;
    SysPhys(m, owners);
    ok, p, m', sp := AllocProc(m, tramp);
    if ok {
      SwapIsStep(m, owners, child, m', Owner(p, sp));
      FlatsPut(m, owners, child, m', Owner(p, sp));
      NewFlat(m', p, tramp, sp);
      procs', owners' := procs[child := p], owners[child := Owner(p, sp)];
      out := Ok(0);
    } else {
      NothingSpent(m, owners, m');
      FlatsUnspent(m, owners, m');
      out := Failed;
    }
  }

  method ForkStep(m: Phys, procs: map<nat, Proc>, pid: nat, child: nat, tramp: nat, ghost owners: map<nat, Owner>)
    returns (out: Outcome, m': Phys, procs': map<nat, Proc>, ghost owners': map<nat, Owner>)
    requires SysOk(m, owners) && Matches(procs, owners) && IsPageAddr(tramp) && tramp + PGSIZE <= MAXPA
    ensures SysStep(m, owners, m', owners') && Matches(procs', owners')
    ensures Leads(Flats(m, owners), Fork(pid, child), out, Flats(m', owners'))
    ensures out == Failed ==> pid in procs && |m.free| < 6 + 3 * Pages(procs[pid].sz)
  {
    m', procs', owners' := m, procs, owners;
    StandStill(m, owners);
    if pid !in procs || child in procs {
      return Refused, m', procs', owners';
    }
    var ok, np;
    ghost var sp;
    FlatAt(m, owners, procs, pid);
    ok, np, m', sp := Kfork(m, procs[pid], tramp, owners[pid].sp);
    if ok {
      SwapIsStep(m, owners, child, m', Owner(np, sp));
      FlatsPut(m, owners, child, m', Owner(np, sp));
      ForkedFlat(m, procs[pid], owners[pid].sp, m', np, sp);
      procs', owners' := procs[child := np], owners[child := Owner(np, sp)];
      out := Ok(0);
    } else {
      NothingSpent(m, owners, m');
      FlatsUnspent(m, owners, m');
      out := Failed;
    }
  }

  method ExitStep(m: Phys, procs: map<nat, Proc>, pid: nat, ghost owners: map<nat, Owner>)
    returns (out: Outcome, panicked: bool, m': Phys, procs': map<nat, Proc>, ghost owners': map<nat, Owner>)
    requires SysOk(m, owners) && Matches(procs, owners)
    ensures !panicked && SysStep(m, owners, m', owners') && Matches(procs', owners')
    ensures Leads(Flats(m, owners), Exit(pid), out, Flats(m', owners'))
  {
    out, panicked, m', procs', owners' := Refused, false, m, procs, owners;
    if pid !in procs {
      StandStill(m, owners);
      return;
    }
    var ok;
    FlatAt(m, owners, procs, pid);
    ok, m' := FreeProc(m, procs[pid], owners[pid].sp);
    SwapIsStep(m, owners, pid, m', Nobody);
    FlatsPut(m, owners, pid, m', Nobody);
    out, panicked, procs', owners' := Ok(0), !ok, procs - {pid}, owners - {pid};
  }

  method SbrkStep(m: Phys, procs: map<nat, Proc>, pid: nat, n: i32, eager: bool, ghost owners: map<nat, Owner>)
    returns (out: Outcome, panicked: bool, m': Phys, procs': map<nat, Proc>, ghost owners': map<nat, Owner>)
    requires SysOk(m, owners) && Matches(procs, owners)
    ensures !panicked && SysStep(m, owners, m', owners') && Matches(procs', owners')
    ensures Leads(Flats(m, owners), Sbrk(pid, n, eager), out, Flats(m', owners'))
  {
    out, panicked, m', procs', owners' := Refused, false, m, procs, owners;
    if pid !in procs {
      StandStill(m, owners);
      return;
    }
    var r, p;
    ghost var sp;
    FlatAt(m, owners, procs, pid);
    ghost var f := Flats(m, owners)[pid];
    r, panicked, p, m', sp := SysSbrk(m, procs[pid], n, eager, owners[pid].sp);
    Seen(m', Owner(p, sp), if r == -1 then f else Resized(f, n, eager));
    SwapIsStep(m, owners, pid, m', Owner(p, sp));
    FlatsPut(m, owners, pid, m', Owner(p, sp));
    procs', owners' := procs[pid := p], owners[pid := Owner(p, sp)];
    out := if r == -1 then Failed else Ok(r);
  }

  method FaultStep(m: Phys, procs: map<nat, Proc>, pid: nat, va: nat, ghost owners: map<nat, Owner>)
    returns (out: Outcome, panicked: bool, m': Phys, procs': map<nat, Proc>, ghost owners': map<nat, Owner>)
    requires SysOk(m, owners) && Matches(procs, owners)
    ensures !panicked && SysStep(m, owners, m', owners') && Matches(procs', owners')
    ensures Leads(Flats(m, owners), Fault(pid, va), out, Flats(m', owners'))
    ensures out == Failed ==> pid in procs && (va >= procs[pid].sz || |m.free| <= 2 ||
                                               va / PGSIZE in Flats(m, owners)[pid].pages)
  {
    out, panicked, m', procs', owners' := Refused, false, m, procs, owners;
    if pid !in procs {
      StandStill(m, owners);
      return;
    }
    var r;
    ghost var sp;
    FlatAt(m, owners, procs, pid);
    FaultSeen(m, procs[pid], owners[pid].sp, va);
    ghost var f := Flats(m, owners)[pid];
    r, panicked, m', sp := Vmfault(m, procs[pid], va, owners[pid].sp);
    Seen(m', Owner(procs[pid], sp), if r == 0 then f else WithPage(f, va));
    SwapIsStep(m, owners, pid, m', Owner(procs[pid], sp));
    FlatsPut(m, owners, pid, m', Owner(procs[pid], sp));
    owners' := owners[pid := Owner(procs[pid], sp)];
    out := if r == 0 then Failed else Ok(r);
  }

  /** A store by the user program: the hardware finds the page by the table, and the flags must
      allow it. */
  method StoreStep(m: Phys, procs: map<nat, Proc>, pid: nat, v: nat, data: Page, ghost owners: map<nat, Owner>)
    returns (out: Outcome, m': Phys)
    requires SysOk(m, owners) && Matches(procs, owners)
    ensures SysStep(m, owners, m', owners)
    ensures Leads(Flats(m, owners), Store(pid, v, data), out, Flats(m', owners))
  {
    out, m' := Refused, m;
    StandStill(m, owners);
    if pid !in procs {
      return;
    }
    FlatAt(m, owners, procs, pid);
    out := Failed;
    if v >= USERVPN {
      return;
    }
    var r := FindPage(m, procs[pid].root, v, owners[pid].sp);
    PageSeen(m, procs[pid], owners[pid].sp, v);
    if r.NotFound? || !Writable(r.flags) {
      return;
    }
    m' := Phys(m.mem[r.pa := data], m.free, m.end);
    Stored(m, procs[pid], owners[pid].sp, v, data);
    SwapIsStep(m, owners, pid, m', owners[pid]);
    FlatsPut(m, owners, pid, m', owners[pid]);
    assert Put(owners, pid, owners[pid]) == owners;
    out := Ok(0);
  }

  datatype Found = NotFound | Found(pa: nat, flags: nat)

  /** The walk of the hardware. */
  method FindPage(m: Phys, root: nat, v: nat, ghost sp: Space) returns (r: Found)
    requires SpaceOk(m, sp) && root == sp.t.at[Root] && v < USERVPN
    ensures r.NotFound? <==> v !in sp.t.abs
    ensures r.Found? ==> r.pa == Pte2Pa(sp.t.abs[v]) && r.flags == PteFlags(sp.t.abs[v])
  {
    assert Open(true);
    var w, m1;
    ghost var t1;
    var va := v * PGSIZE;
    assert va / PGSIZE == v && va < MAXVA;
    w, m1, t1 := Walk(m, root, va, false, sp.t);
    LookupIsAbs(m.mem, sp.t, v);
    if w.Absent? || !IsValid(m.mem[w.page][w.k]) {
      return NotFound;
    }
    r := Found(Pte2Pa(m.mem[w.page][w.k]), PteFlags(m.mem[w.page][w.k]));
  }

  lemma PageSeen(m: Phys, p: Proc, sp: Space, v: nat)
    requires ProcOk(m, p, sp) && v < USERVPN
    ensures var f := FlatOf(m, Owner(p, sp));
            && (v in f.pages <==> v in sp.t.abs)
            && (v in sp.t.abs ==> f.pages[v].flags == PteFlags(sp.t.abs[v]))
  {
    if v in sp.t.abs {
      UserPage(m, sp, v);
    }
  }

  /** One page of the process has other contents; no other page is the same one. */
  lemma Stored(m: Phys, p: Proc, sp: Space, v: nat, data: Page)
    requires ProcOk(m, p, sp) && v in sp.t.abs && v < USERVPN
    ensures var o, m' := Owner(p, sp), Phys(m.mem[Pte2Pa(sp.t.abs[v]) := data], m.free, m.end);
            && Swap(m, o, m', o)
            && FlatOf(m', o) == FlatOf(m, o).(pages := FlatOf(m, o).pages[v := Want(PteFlags(sp.t.abs[v]), data)])
  {
    var pa := Pte2Pa(sp.t.abs[v]);
    var o, m' := Owner(p, sp), Phys(m.mem[pa := data], m.free, m.end);
    UserPage(m, sp, v);
    StoredSpace(m, sp, pa, data);
    assert pa != p.tf && Owns(o, pa);
    forall w | w in sp.t.abs && w < USERVPN && w != v
      ensures Pte2Pa(sp.t.abs[w]) != pa && Pte2Pa(sp.t.abs[w]) in m.mem
    {
      OtherUserPage(m, sp, v, w);
    }
  }

  lemma StoredSpace(m: Phys, sp: Space, pa: nat, data: Page)
    requires SpaceOk(m, sp) && pa in sp.lo
    ensures var m' := Phys(m.mem[pa := data], m.free, m.end); PhysOk(m') && SpaceOk(m', sp) && pa in m.mem
  {
    assert Open(true);
    TreeFrame(m.mem, m.mem[pa := data], sp.t);
  }

  lemma OtherUserPage(m: Phys, sp: Space, v: nat, w: nat)
    requires SpaceOk(m, sp) && v in sp.t.abs && w in sp.t.abs && v < USERVPN && w < USERVPN && v != w
    ensures Pte2Pa(sp.t.abs[w]) != Pte2Pa(sp.t.abs[v]) && Pte2Pa(sp.t.abs[w]) in m.mem
  {
    assert Open(true);
    UserPage(m, sp, w);
  }

  /** From the memories fs the calls with their outcomes lead, one after another, to fs'. */
  ghost predicate LeadsOn(fs: map<nat, Flat>, calls: seq<Call>, outs: seq<Outcome>, k: nat, fs': map<nat, Flat>)
    requires k <= |outs| <= |calls|
  {
    if k == 0 then fs' == fs
    else exists mid {:trigger Leads(mid, calls[k - 1], outs[k - 1], fs')} ::
           LeadsOn(fs, calls, outs, k - 1, mid) && Leads(mid, calls[k - 1], outs[k - 1], fs')
  }

  lemma {:induction false} LeadsBefore(fs: map<nat, Flat>, calls: seq<Call>, outs: seq<Outcome>, out: Outcome, k: nat,
                                       fs': map<nat, Flat>)
    requires k <= |outs| < |calls| && LeadsOn(fs, calls, outs, k, fs')
    ensures LeadsOn(fs, calls, outs + [out], k, fs')
  {
    if k > 0 {
      var mid :| LeadsOn(fs, calls, outs, k - 1, mid) && Leads(mid, calls[k - 1], outs[k - 1], fs');
      LeadsBefore(fs, calls, outs, out, k - 1, mid);
      assert Leads(mid, calls[k - 1], (outs + [out])[k - 1], fs');
    }
  }

  lemma LeadsNext(fs: map<nat, Flat>, calls: seq<Call>, outs: seq<Outcome>, out: Outcome, mid: map<nat, Flat>,
                  fs': map<nat, Flat>)
    requires |outs| < |calls| && LeadsOn(fs, calls, outs, |outs|, mid) && Leads(mid, calls[|outs|], out, fs')
    ensures LeadsOn(fs, calls, outs + [out], |outs| + 1, fs')
  {
    LeadsBefore(fs, calls, outs, out, |outs|, mid);
    assert Leads(mid, calls[|outs| + 1 - 1], (outs + [out])[|outs| + 1 - 1], fs');
  }

  /** Whatever the processes do, no panic is reached, every page is free or held once, the pages
      in use never change in number or identity, and each process has a memory of its own: it
      sees what its own calls and stores have made of it, and nothing else. */
  method Run(m: Phys, calls: seq<Call>, tramp: nat)
    returns (outs: seq<Outcome>, panicked: bool, m': Phys, procs: map<nat, Proc>, ghost owners: map<nat, Owner>)
    requires PhysOk(m) && IsPageAddr(tramp) && tramp + PGSIZE <= MAXPA
    ensures !panicked && SysStep(m, map[], m', owners) && Matches(procs, owners) && |outs| == |calls|
    ensures LeadsOn(map[], calls, outs, |calls|, Flats(m', owners))
  {
    outs, panicked, m', procs, owners := [], false, m, map[], map[];
    NobodyYet(m);
    for i := 0 to |calls|
      invariant !panicked && SysStep(m, map[], m', owners) && Matches(procs, owners) && |outs| == i
      invariant LeadsOn(map[], calls, outs, i, Flats(m', owners))
    {
      ghost var m1, owners1 := m', owners;
      var out;
      out, panicked, m', procs, owners := Step(m', procs, calls[i], tramp, owners);
      SysStepTransitive(m, map[], m1, owners1, m', owners);
      LeadsNext(map[], calls, outs, out, Flats(m1, owners1), Flats(m', owners));
      outs := outs + [out];
    }
  }

  lemma NobodyYet(m: Phys)
    requires PhysOk(m)
    ensures SysStep(m, map[], m, map[])
  {
    assert SysOk(m, map[]);
  }
}
