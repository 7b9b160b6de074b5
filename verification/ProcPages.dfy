/** Which pages a process holds: its page table, its user memory and its trapframe. Creating
    and freeing processes, and fork. */
module ProcPages {
  import opened PageTable
  import opened ProcessMemory
  import opened Seals
  import opened UserMemory
  import opened Vm

  const TRAPFRAMEVPN: nat := TRAPFRAME / PGSIZE
  const TRAMPOLINEVPN: nat := TRAMPOLINE / PGSIZE

  // ---------- proc_pagetable ----------

  /** From m, pages were taken for the new space sp'. */
  ghost predicate Took(m: Phys, m': Phys, sp': Space) {
    && SpaceOk(m', sp') && m'.end == m.end && m'.mem.Keys == m.mem.Keys
    && (forall p {:trigger InPool(m', sp', p)} :: InPool(m', sp', p) <==> p in m.free)
    && (forall p {:trigger SameAt(m.mem, m'.mem, p)} :: p in m.mem && p !in m.free ==> SameAt(m.mem, m'.mem, p))
  }

  /** The same pages are free as in m, and the others hold what they held. */
  ghost predicate Unspent(m: Phys, m': Phys) {
    && PhysOk(m') && m'.end == m.end && m'.mem.Keys == m.mem.Keys && m'.free == m.free
    && (forall p {:trigger SameAt(m.mem, m'.mem, p)} :: p in m.mem && p !in m.free ==> SameAt(m.mem, m'.mem, p))
  }

  lemma TookThenMoved(m: Phys, m1: Phys, sp1: Space, m2: Phys, sp2: Space)
    requires Took(m, m1, sp1) && Moves(m1, sp1, m2, sp2)
    ensures Took(m, m2, sp2)
  {
    assert Shown(true);
    forall p
      ensures InPool(m2, sp2, p) <==> p in m.free
    {
      assert InPool(m1, sp1, p) <==> p in m.free;
    }
    forall p | p in m.mem && p !in m.free
      ensures SameAt(m.mem, m2.mem, p)
    {
      assert SameAt(m.mem, m1.mem, p) && !InPool(m1, sp1, p) && SameAt(m1.mem, m2.mem, p);
    }
  }

  lemma TookThenGaveBack(m: Phys, m1: Phys, sp1: Space, m2: Phys)
    requires Took(m, m1, sp1) && GivenBack(m1, sp1, m2)
    ensures Unspent(m, m2)
  {
    forall p: nat
      ensures p in m2.free <==> p in m.free
    {
      assert InPool(m1, sp1, p) <==> p in m.free;
      assert p in m2.free ==> InPool(m1, sp1, p);
      assert InPool(m1, sp1, p) ==> p in m2.free;
    }
    forall p | p in m.mem && p !in m.free
      ensures SameAt(m.mem, m2.mem, p)
    {
      assert SameAt(m.mem, m1.mem, p) && !InPool(m1, sp1, p) && SameAt(m1.mem, m2.mem, p);
    }
  }

  /** A mapping above user memory. */
  lemma TableMoves(m: Phys, sp: Space, m': Phys, t': Tree)
    requires SpaceOk(m, sp) && Steps(m, sp.t, m', t')
    requires Inverse(t'.abs, sp.lo)
    ensures Moves(m, sp, m', Space(t', sp.lo))
  {
    assert Open(true);
    var sp' := Space(t', sp.lo);
    forall p | p in sp.lo
      ensures p in m'.mem && p !in m'.free && p !in t'.own
    {
      assert !Mine(sp.t, m.free, p) && !Mine(t', m'.free, p);
    }
    forall p
      ensures InPool(m', sp', p) <==> InPool(m, sp, p)
    {
      assert Mine(t', m'.free, p) <==> Mine(sp.t, m.free, p);
    }
    forall p | p in m.mem && !InPool(m, sp, p)
      ensures SameAt(m.mem, m'.mem, p)
    {
      assert !Mine(sp.t, m.free, p);
    }
  }

  lemma HighEntry(abs: map<nat, u64>, lo: map<nat, nat>, v: nat, pte: u64)
    requires Inverse(abs, lo) && v >= USERVPN
    ensures Inverse(abs[v := pte], lo)
  {
  }

  /** mappages of one page above user memory. */
  method MapHigh(m: Phys, root: nat, v: nat, pa: nat, perm: nat, ghost sp: Space)
    returns (ok: bool, m': Phys, ghost sp': Space)
    requires SpaceOk(m, sp) && root == sp.t.at[Root]
    requires USERVPN <= v < MAXVPN && v !in sp.t.abs
    requires IsPageAddr(pa) && pa + PGSIZE <= MAXPA && perm < 0x400 && perm / 2 % 8 != 0
    ensures Moves(m, sp, m', sp') && sp'.lo == sp.lo
    ensures sp'.t.abs == if ok then sp.t.abs[v := MakePte(pa, perm)] else sp.t.abs
    ensures !ok ==> m'.free == {} && |m.free| <= 1
    ensures |m.free| <= |m'.free| + 2
  {
    assert PhysOk(m) && TreeOk(m.mem, sp.t) && Apart(sp.t, m.free) && Inverse(sp.t.abs, sp.lo) by {
      assert Open(true);
    }
    var r;
    ghost var t';
    r, m', t' := MapPage(m, root, v, pa, perm, sp.t);
    HighEntry(sp.t.abs, sp.lo, v, MakePte(pa, perm));
    TableMoves(m, sp, m', t');
    ok, sp' := r.Mapped?, Space(t', sp.lo);
  }

  ghost function EmptySpace(root: nat): Space {
    Space(Tree(map[Root := root], map[root := Root], map[]), map[])
  }

  /** uvmcreate. The result 0 means that there is no memory. */
  method Uvmcreate(m: Phys) returns (root: nat, m': Phys)
    requires PhysOk(m)
    ensures root == 0 <==> m.free == {}
    ensures root == 0 ==> m' == m
    ensures root != 0 ==> Took(m, m', EmptySpace(root)) && |m.free| == |m'.free| + 1
  {
    root, m' := Kalloc(m);
    if root != 0 {
      m' := Phys(m'.mem[root := PageTable.Filled(0)], m'.free, m'.end);
      EmptyTable(m, root);
    }
  }

  lemma EmptyTable(m: Phys, root: nat)
    requires PhysOk(m) && root in m.free
    ensures Took(m, Phys(m.mem[root := PageTable.Filled(0)], m.free - {root}, m.end), EmptySpace(root))
  {
    var m', sp := Phys(m.mem[root := PageTable.Filled(0)], m.free - {root}, m.end), EmptySpace(root);
    assert Managed(m.end, root);
    assert Shape(sp.t);
    assert HoldsNode(PageTable.Filled(0), sp.t, Root);
    assert PhysOk(m') && TreeOk(m'.mem, sp.t) && LeavesOk(sp) && Disjoint(m', sp);
    assert SpaceOk(m', sp);
    assert forall p :: InPool(m', sp, p) <==> p in m.free;
  }

  /** The mappings of a process without user memory. */
  ghost function KernelPart(tf: nat, tramp: nat): map<nat, u64>
    requires IsPageAddr(tf) && IsPageAddr(tramp)
  {
    map[TRAMPOLINEVPN := MakePte(tramp, PTE_R + PTE_X), TRAPFRAMEVPN := MakePte(tf, PTE_R + PTE_W)]
  }

  /** proc_pagetable. Out of memory, it gives everything back and returns 0. */
  method ProcPagetable(m: Phys, tf: nat, tramp: nat) returns (root: nat, m': Phys, ghost sp': Space)
    requires PhysOk(m)
    requires IsPageAddr(tf) && tf + PGSIZE <= MAXPA && IsPageAddr(tramp) && tramp + PGSIZE <= MAXPA
    ensures root == 0 ==> Unspent(m, m') && |m.free| <= 4
    ensures root != 0 ==> |m.free| <= |m'.free| + 5
    ensures root != 0 ==> && Took(m, m', sp') && root == sp'.t.at[Root]
                          && sp'.t.abs == KernelPart(tf, tramp) && sp'.lo == map[]
  {
    var r, ok, freed;
    sp' := EmptySpace(0);
    r, m' := Uvmcreate(m);
    if r == 0 {
      return 0, m', sp';
    }
    ghost var m1, sp1 := m', EmptySpace(r);
    ok, m', sp' := MapHigh(m', r, TRAMPOLINEVPN, tramp, PTE_R + PTE_X, sp1);
    TookThenMoved(m, m1, sp1, m', sp');
    ghost var m2, sp2 := m', sp';
    if !ok {
      freed, m' := Uvmfree(m', r, 0, sp');
      TookThenGaveBack(m, m2, sp2, m');
      return 0, m', sp';
    }
    ok, m', sp' := MapHigh(m', r, TRAPFRAMEVPN, tf, PTE_R + PTE_W, sp');
    TookThenMoved(m, m2, sp2, m', sp');
    if !ok {
      m' := DropTable(m', r, sp', m);
      return 0, m', sp';
    }
    root := r;
  }

  /** proc_pagetable's retreat after the second mapping failed. */
  method DropTable(m: Phys, root: nat, ghost sp: Space, ghost m0: Phys) returns (m': Phys)
    requires Took(m0, m, sp) && root == sp.t.at[Root]
    requires forall v :: v in sp.t.abs ==> v == TRAMPOLINEVPN
    ensures Unspent(m0, m')
  {
    var aligned, freed;
    ghost var sp1;
    aligned, m', sp1 := Uvmunmap(m, root, TRAMPOLINE, 1, false, sp);
    TookThenMoved(m0, m, sp, m', sp1);
    ghost var m1 := m';
    freed, m' := Uvmfree(m', root, 0, sp1);
    TookThenGaveBack(m0, m1, sp1, m');
  }

  // ---------- owners of pages ----------

  /** The memory of a process: p->pagetable, p->trapframe, p->sz. */
  datatype Proc = Proc(root: nat, tf: nat, sz: nat)

  datatype Owner = Nobody | Owner(p: Proc, sp: Space)

  ghost predicate Owns(o: Owner, q: nat) {
    o.Owner? && (Belongs(o.sp, q) || q == o.p.tf)
  }

  /** The pages of o and the free pages. */
  ghost predicate Has(m: Phys, o: Owner, q: nat) {
    Owns(o, q) || q in m.free
  }

  /** Only user memory below sz, the trapframe and the trampoline are mapped. */
  ghost predicate MappedWithin(abs: map<nat, u64>, p: Proc) {
    && p.sz <= TRAPFRAME && IsPageAddr(p.tf)
    && (forall v {:trigger v in abs} :: v in abs ==> v < Pages(p.sz) || v == TRAPFRAMEVPN || v == TRAMPOLINEVPN)
    && TRAPFRAMEVPN in abs && abs[TRAPFRAMEVPN] == MakePte(p.tf, PTE_R + PTE_W) && TRAMPOLINEVPN in abs
  }

  ghost predicate ProcOk(m: Phys, p: Proc, sp: Space) {
    && SpaceOk(m, sp) && p.root == sp.t.at[Root]
    && p.tf in m.mem && p.tf !in m.free && !Belongs(sp, p.tf)
    && MappedWithin(sp.t.abs, p)
  }

  ghost predicate OwnerOk(m: Phys, o: Owner) {
    o.Owner? ==> ProcOk(m, o.p, o.sp)
  }

  ghost predicate OwnApart(o: Owner, o': Owner) {
    forall q {:trigger Owns(o, q)} {:trigger Owns(o', q)} :: Owns(o, q) ==> !Owns(o', q)
  }

  /** From m with owner o to m' with owner o', pages moved between the owner and the free
      pages only, and no other page was touched. */
  ghost predicate Swap(m: Phys, o: Owner, m': Phys, o': Owner) {
    && PhysOk(m') && OwnerOk(m', o') && m'.end == m.end && m'.mem.Keys == m.mem.Keys
    && (forall q {:trigger Has(m', o', q)} :: Has(m', o', q) <==> Has(m, o, q))
    && (forall q {:trigger SameAt(m.mem, m'.mem, q)} :: q in m.mem && !Has(m, o, q) ==> SameAt(m.mem, m'.mem, q))
  }

  /** What one process does leaves the others alone. */
  lemma OtherOwnerKept(m: Phys, o: Owner, m': Phys, o': Owner, c: Owner)
    requires OwnerOk(m, c) && OwnApart(c, o) && Swap(m, o, m', o')
    ensures OwnerOk(m', c) && OwnApart(c, o')
    ensures forall q :: Owns(c, q) ==> SameAt(m.mem, m'.mem, q)
  {
    forall q | Owns(c, q)
      ensures SameAt(m.mem, m'.mem, q) && q !in m'.free && !Owns(o', q)
    {
      OwnedPage(m, c, q);
      assert !Has(m, o, q) && !Has(m', o', q);
    }
    if c.Owner? {
      assert Owns(c, c.p.tf);
      SpaceFrame(m, c, m');
    }
  }

  lemma OwnedPage(m: Phys, c: Owner, q: nat)
    requires OwnerOk(m, c) && Owns(c, q)
    ensures q in m.mem && q !in m.free
  {
    assert Open(true);
    if q in c.sp.t.own {
      assert c.sp.t.own[q] in c.sp.t.at;
    }
  }

  lemma SpaceFrame(m: Phys, c: Owner, m': Phys)
    requires c.Owner? && OwnerOk(m, c) && PhysOk(m')
    requires forall q {:trigger Owns(c, q)} :: Owns(c, q) ==> SameAt(m.mem, m'.mem, q) && q !in m'.free
    ensures SpaceOk(m', c.sp)
  {
    assert Open(true);
    forall p | Belongs(c.sp, p)
      ensures SameAt(m.mem, m'.mem, p) && p !in m'.free
    {
      assert Owns(c, p);
    }
    forall p | p in c.sp.t.own
      ensures SameAt(m.mem, m'.mem, p)
    {
      assert Belongs(c.sp, p);
    }
    TreeFrame(m.mem, m'.mem, c.sp.t);
    forall p | p in c.sp.t.own
      ensures p !in m'.free
    {
      assert Belongs(c.sp, p);
    }
    forall p | p in c.sp.lo
      ensures p in m'.mem && p !in m'.free
    {
      assert Belongs(c.sp, p) && SameAt(m.mem, m'.mem, p);
    }
  }

  /** What happens within the space of a process, seen as the process's doing. */
  lemma MovesIsSwap(m: Phys, p: Proc, sp: Space, m': Phys, p': Proc, sp': Space)
    requires ProcOk(m, p, sp) && Moves(m, sp, m', sp') && p'.root == p.root && p'.tf == p.tf
    requires MappedWithin(sp'.t.abs, p')
    ensures Swap(m, Owner(p, sp), m', Owner(p', sp'))
  {
    assert Shown(true);
    var o, o' := Owner(p, sp), Owner(p', sp');
    assert PhysOk(m') by {
      assert Open(true);
    }
    assert !InPool(m, sp, p.tf) && !InPool(m', sp', p.tf);
    forall q
      ensures Has(m', o', q) <==> Has(m, o, q)
    {
      assert InPool(m', sp', q) <==> InPool(m, sp, q);
    }
    forall q | q in m.mem && !Has(m, o, q)
      ensures SameAt(m.mem, m'.mem, q)
    {
      assert !InPool(m, sp, q);
    }
  }
}
