/** Processes come, fork and go: the page accounting of allocproc, freeproc and kfork. */
module ProcCalls {
  import opened PageTable
  import opened ProcPages
  import opened ProcessMemory
  import opened Seals
  import opened UserMemory
  import opened Vm

  lemma SwapTransitive(m0: Phys, o0: Owner, m1: Phys, o1: Owner, m2: Phys, o2: Owner)
    requires Swap(m0, o0, m1, o1) && Swap(m1, o1, m2, o2)
    ensures Swap(m0, o0, m2, o2)
  {
    forall q
      ensures Has(m2, o2, q) <==> Has(m0, o0, q)
    {
      assert Has(m1, o1, q) <==> Has(m0, o0, q);
    }
    forall q | q in m0.mem && !Has(m0, o0, q)
      ensures SameAt(m0.mem, m2.mem, q)
    {
      assert SameAt(m0.mem, m1.mem, q) && !Has(m1, o1, q) && SameAt(m1.mem, m2.mem, q);
    }
  }

  /** With nobody before and nobody after, nothing was spent. */
  lemma SwapIsUnspent(m: Phys, m': Phys)
    requires Swap(m, Nobody, m', Nobody)
    ensures Unspent(m, m')
  {
    forall p: nat
      ensures p in m'.free <==> p in m.free
    {
      assert Has(m', Nobody, p) <==> Has(m, Nobody, p);
    }
    forall p | p in m.mem && p !in m.free
      ensures SameAt(m.mem, m'.mem, p)
    {
      assert !Has(m, Nobody, p);
    }
  }

  // ---------- allocproc ----------

  /** The trapframe page was taken first, then the table. */
  lemma TrapframeThenTable(m: Phys, tf: nat, junk: Page, m': Phys, p: Proc, sp: Space)
    requires PhysOk(m) && tf in m.free && Took(Phys(m.mem[tf := junk], m.free - {tf}, m.end), m', sp)
    requires p.tf == tf && p.root == sp.t.at[Root] && MappedWithin(sp.t.abs, p)
    ensures Swap(m, Nobody, m', Owner(p, sp))
  {
    var m1, o := Phys(m.mem[tf := junk], m.free - {tf}, m.end), Owner(p, sp);
    assert PhysOk(m') by {
      assert Open(true);
    }
    assert Managed(m.end, tf);
    assert !InPool(m', sp, tf);
    forall q
      ensures Has(m', o, q) <==> Has(m, Nobody, q)
    {
      assert InPool(m', sp, q) <==> q in m1.free;
    }
    forall q | q in m.mem && !Has(m, Nobody, q)
      ensures SameAt(m.mem, m'.mem, q)
    {
      assert SameAt(m1.mem, m'.mem, q);
    }
  }

  lemma TrapframeReturned(m: Phys, tf: nat, junk: Page, m2: Phys, junk': Page)
    requires PhysOk(m) && tf in m.free && Unspent(Phys(m.mem[tf := junk], m.free - {tf}, m.end), m2)
    ensures tf in m2.mem && tf !in m2.free && Managed(m2.end, tf)
    ensures Unspent(m, Phys(m2.mem[tf := junk'], m2.free + {tf}, m2.end))
  {
    var m1, m3 := Phys(m.mem[tf := junk], m.free - {tf}, m.end), Phys(m2.mem[tf := junk'], m2.free + {tf}, m2.end);
    assert Managed(m.end, tf);
    forall p | p in m.mem && p !in m.free
      ensures SameAt(m.mem, m3.mem, p)
    {
      assert SameAt(m1.mem, m2.mem, p);
    }
  }

  lemma KernelPartWithin(p: Proc, tramp: nat)
    requires p.sz == 0 && IsPageAddr(p.tf) && IsPageAddr(tramp)
    ensures MappedWithin(KernelPart(p.tf, tramp), p)
  {
  }

  /** The memory of a new process. On failure everything is as before. */
  method AllocProc(m: Phys, tramp: nat) returns (ok: bool, p: Proc, m': Phys, ghost sp': Space)
    requires PhysOk(m) && IsPageAddr(tramp) && tramp + PGSIZE <= MAXPA
    ensures !ok ==> Unspent(m, m') && |m.free| <= 5
    ensures ok ==> |m.free| <= |m'.free| + 6
    ensures ok ==> && Swap(m, Nobody, m', Owner(p, sp')) && p.sz == 0
                   && IsPageAddr(p.tf) && sp'.t.abs == KernelPart(p.tf, tramp) && sp'.lo == map[]
  {
    ok, p, sp' := false, Proc(0, 0, 0), EmptySpace(0);
    var tf, root;
    tf, m' := Kalloc(m);
    if tf == 0 {
      return;
    }
    assert Managed(m.end, tf);
    root, m', sp' := ProcPagetable(m', tf, tramp);
    if root == 0 {
      ghost var m2 := m';
      TrapframeReturned(m, tf, PageTable.Filled(0x505_0505_0505_0505), m2, PageTable.Filled(0x101_0101_0101_0101));
      ok, m' := Kfree(m', tf);
      ok := false;
      return;
    }
    ok, p := true, Proc(root, tf, 0);
    KernelPartWithin(p, tramp);
    TrapframeThenTable(m, tf, PageTable.Filled(0x505_0505_0505_0505), m', p, sp');
  }

  // ---------- freeproc ----------

  /** The trapframe goes first; the space stays whole. */
  lemma TrapframeFreed(m: Phys, p: Proc, sp: Space, junk: Page)
    requires ProcOk(m, p, sp)
    ensures Managed(m.end, p.tf) && PhysOk(m)
    ensures SpaceOk(Phys(m.mem[p.tf := junk], m.free + {p.tf}, m.end), sp)
  {
    assert Open(true);
    assert p.tf !in sp.t.own && p.tf !in sp.lo;
    TreeFrame(m.mem, m.mem[p.tf := junk], sp.t);
  }

  lemma AllGone(m: Phys, p: Proc, sp: Space, junk: Page, m': Phys)
    requires ProcOk(m, p, sp) && GivenBack(Phys(m.mem[p.tf := junk], m.free + {p.tf}, m.end), sp, m')
    ensures Swap(m, Owner(p, sp), m', Nobody)
  {
    var m1, o := Phys(m.mem[p.tf := junk], m.free + {p.tf}, m.end), Owner(p, sp);
    forall q: nat
      ensures Has(m', Nobody, q) <==> Has(m, o, q)
    {
      assert InPool(m1, sp, q) ==> q in m'.free;
      assert q in m'.free ==> InPool(m1, sp, q);
    }
    forall q | q in m.mem && !Has(m, o, q)
      ensures SameAt(m.mem, m'.mem, q)
    {
      assert !InPool(m1, sp, q) && SameAt(m1.mem, m'.mem, q);
    }
  }

  /** proc_freepagetable. */
  method ProcFreePagetable(m: Phys, root: nat, sz: nat, ghost sp: Space) returns (ok: bool, m': Phys)
    requires SpaceOk(m, sp) && root == sp.t.at[Root] && sz <= TRAPFRAME
    ensures ok <==> forall v :: v in sp.t.abs ==> v < Pages(sz) || v == TRAPFRAMEVPN || v == TRAMPOLINEVPN
    ensures ok ==> GivenBack(m, sp, m')
  {
    var aligned;
    ghost var sp1, sp2;
    aligned, m', sp1 := Uvmunmap(m, root, TRAMPOLINE, 1, false, sp);
    ghost var m1 := m';
    aligned, m', sp2 := Uvmunmap(m', root, TRAPFRAME, 1, false, sp1);
    ghost var m2 := m';
    ok, m' := Uvmfree(m', root, sz, sp2);
    TwoUnmapped(sp.t.abs, sz);
    MovesTransitive(m, sp, m1, sp1, m2, sp2);
    if ok {
      MovedThenGivenBack(m, sp, m2, sp2, m');
    }
  }

  lemma TwoUnmapped(abs: map<nat, u64>, sz: nat)
    ensures (forall v :: v in Minus(Minus(abs, TRAMPOLINEVPN, 1), TRAPFRAMEVPN, 1) ==> v < Pages(sz)) <==>
            (forall v :: v in abs ==> v < Pages(sz) || v == TRAPFRAMEVPN || v == TRAMPOLINEVPN)
  {
    var abs' := Minus(Minus(abs, TRAMPOLINEVPN, 1), TRAPFRAMEVPN, 1);
    forall v: nat
      ensures v in abs' <==> v in abs && v != TRAPFRAMEVPN && v != TRAMPOLINEVPN
    {
    }
  }

  /** Everything that a process holds becomes free, without a panic. */
  method FreeProc(m: Phys, p: Proc, ghost sp: Space) returns (ok: bool, m': Phys)
    requires ProcOk(m, p, sp)
    ensures ok && Swap(m, Owner(p, sp), m', Nobody)
  {
    var freed;
    TrapframeFreed(m, p, sp, PageTable.Filled(0x101_0101_0101_0101));
    freed, m' := Kfree(m, p.tf);
    ok, m' := ProcFreePagetable(m', p.root, p.sz, sp);
    AllGone(m, p, sp, PageTable.Filled(0x101_0101_0101_0101), m');
  }

  // ---------- kfork ----------

  const TRAPFRAMEWORDS: nat := 36   // sizeof(struct trapframe) / 8
  const A0: nat := 14               // the word of a0

  /** The child's trapframe page after the copy: fork returns 0 in the child. */
  function TrapframeCopy(parent: Page, child: Page): (r: Page)
    ensures r[A0] == 0
    ensures forall i :: 0 <= i < TRAPFRAMEWORDS && i != A0 ==> r[i] == parent[i]
  {
    (parent[..TRAPFRAMEWORDS] + child[TRAPFRAMEWORDS..])[A0 := 0]
  }

  /** The child np has a copy of the parent's user memory and trapframe as they were in m. */
  ghost predicate ForkedFrom(m: Phys, p: Proc, par: Space, m': Phys, np: Proc, sp: Space) {
    && np.sz == p.sz
    && (forall v {:trigger v in sp.t.abs} :: v < USERVPN ==> (v in sp.t.abs <==> v in par.t.abs))
    && (forall v {:trigger par.t.abs[v]} :: v in par.t.abs && v < USERVPN ==>
          Pte2Pa(par.t.abs[v]) in m.mem &&
          MapsTo(m'.mem, sp.t.abs, v, Want(PteFlags(par.t.abs[v]), m.mem[Pte2Pa(par.t.abs[v])])))
    && p.tf in m.mem && np.tf in m'.mem
    && m'.mem[np.tf][A0] == 0
    && (forall i :: 0 <= i < TRAPFRAMEWORDS && i != A0 ==> m'.mem[np.tf][i] == m.mem[p.tf][i])
  }

  /** The fork, up to the trapframe: the child's space takes the parent's pages. */
  method CopyMemory(m: Phys, p: Proc, np: Proc, ghost par: Space, ghost sp: Space)
    returns (ok: bool, m': Phys, ghost sp': Space)
    requires ProcOk(m, p, par) && ProcOk(m, np, sp) && np.sz == 0
    requires OwnApart(Owner(p, par), Owner(np, sp))
    ensures ok ==> && Swap(m, Owner(np, sp), m', Owner(np.(sz := p.sz), sp'))
                   && Adds(sp.t.abs, Wanted(m.mem, par.t.abs, Pages(p.sz)), m'.mem, sp'.t.abs)
    ensures !ok ==> Swap(m, Owner(np, sp), m', Owner(np, sp')) && |m.free| < 3 * Pages(p.sz)
  {
    assert Separate(par, sp) by {
      forall q | Belongs(par, q)
        ensures !Belongs(sp, q)
      {
        assert Owns(Owner(p, par), q) && !Owns(Owner(np, sp), q);
      }
    }
    var r;
    ghost var stop;
    r, m', sp', stop := Uvmcopy(m, p.root, np.root, p.sz, par, sp);
    ok := r.Copied?;
    MovesIsSwap(m, np, sp, m', if ok then np.(sz := p.sz) else np, sp');
  }

  /** Writing a page of its own is a process's own business. */
  lemma TrapframeWritten(m: Phys, p: Proc, sp: Space, data: Page)
    requires ProcOk(m, p, sp)
    ensures Swap(m, Owner(p, sp), Phys(m.mem[p.tf := data], m.free, m.end), Owner(p, sp))
    ensures SameData(m.mem, m.mem[p.tf := data], sp.lo)
  {
    assert Open(true);
    var m' := Phys(m.mem[p.tf := data], m.free, m.end);
    assert p.tf !in sp.t.own && p.tf !in sp.lo;
    assert Managed(m.end, p.tf);
    TreeFrame(m.mem, m'.mem, sp.t);
    assert SpaceOk(m', sp);
    forall q
      ensures Has(m', Owner(p, sp), q) <==> Has(m, Owner(p, sp), q)
    {
    }
  }

  /** What the copy put into the child is what the parent had. */
  lemma CopyIsFork(m: Phys, p: Proc, par: Space, m1: Phys, sp1: Space, m2: Phys, np: Proc, sp: Space, m': Phys)
    requires ProcOk(m, p, par) && ProcOk(m2, np, sp) && np.sz == p.sz
    requires forall q :: Owns(Owner(p, par), q) ==> SameAt(m.mem, m1.mem, q) && SameAt(m.mem, m2.mem, q)
    requires Adds(sp1.t.abs, Wanted(m1.mem, par.t.abs, Pages(p.sz)), m2.mem, sp.t.abs)
    requires forall v :: v in sp1.t.abs ==> v >= USERVPN
    requires SameData(m2.mem, m'.mem, sp.lo) && p.tf in m2.mem && np.tf in m'.mem
    requires m'.mem[np.tf] == TrapframeCopy(m2.mem[p.tf], m2.mem[np.tf])
    ensures ForkedFrom(m, p, par, m', np, sp)
  {
    var wants := Wanted(m1.mem, par.t.abs, Pages(p.sz));
    assert Owns(Owner(p, par), p.tf);
    forall v | v < USERVPN
      ensures v in sp.t.abs <==> v in par.t.abs
    {
      if v in par.t.abs {
        ParentPage(m, p, par, m1, v);
        assert v in wants;
      }
    }
    forall v | v in par.t.abs && v < USERVPN
      ensures Pte2Pa(par.t.abs[v]) in m.mem
      ensures MapsTo(m'.mem, sp.t.abs, v, Want(PteFlags(par.t.abs[v]), m.mem[Pte2Pa(par.t.abs[v])]))
    {
      ParentPage(m, p, par, m1, v);
      assert v in wants && MapsTo(m2.mem, sp.t.abs, v, wants[v]);
      assert Pte2Pa(sp.t.abs[v]) in sp.lo by {
        assert Open(true);
      }
      assert SameAt(m2.mem, m'.mem, Pte2Pa(sp.t.abs[v]));
    }
  }

  lemma ParentPage(m: Phys, p: Proc, par: Space, m1: Phys, v: nat)
    requires ProcOk(m, p, par) && v in par.t.abs && v < USERVPN
    requires forall q :: Owns(Owner(p, par), q) ==> SameAt(m.mem, m1.mem, q)
    ensures SameAt(m.mem, m1.mem, Pte2Pa(par.t.abs[v])) && v < Pages(p.sz)
  {
    assert Open(true);
    assert Pte2Pa(par.t.abs[v]) in par.lo;
    assert Owns(Owner(p, par), Pte2Pa(par.t.abs[v]));
  }

  /** kfork's memory. If memory runs out anywhere, every page it took is free again. */
  method Kfork(m: Phys, p: Proc, tramp: nat, ghost par: Space) returns (ok: bool, np: Proc, m': Phys, ghost sp': Space)
    requires ProcOk(m, p, par) && IsPageAddr(tramp) && tramp + PGSIZE <= MAXPA
    ensures !ok ==> Unspent(m, m') && |m.free| < 6 + 3 * Pages(p.sz)
    ensures ok ==> Swap(m, Nobody, m', Owner(np, sp')) && ForkedFrom(m, p, par, m', np, sp')
  {
    assert PhysOk(m) by {
      assert Open(true);
    }
    ok, np, m', sp' := AllocProc(m, tramp);
    if !ok {
      return;
    }
    ghost var parent, m1, sp1 := Owner(p, par), m', sp';
    OtherOwnerKept(m, Nobody, m1, Owner(np, sp1), parent);
    ok, m', sp' := CopyMemory(m', p, np, par, sp');
    ghost var m2 := m';
    if !ok {
      SwapTransitive(m, Nobody, m1, Owner(np, sp1), m2, Owner(np, sp'));
      ok, m' := FreeProc(m', np, sp');
      SwapTransitive(m, Nobody, m2, Owner(np, sp'), m', Nobody);
      SwapIsUnspent(m, m');
      ok := false;
      return;
    }
    np := np.(sz := p.sz);
    SwapTransitive(m, Nobody, m1, Owner(np.(sz := 0), sp1), m2, Owner(np, sp'));
    OtherOwnerKept(m, Nobody, m2, Owner(np, sp'), parent);
    var frame := TrapframeCopy(m'.mem[p.tf], m'.mem[np.tf]);
    TrapframeWritten(m2, np, sp', frame);
    m' := Phys(m'.mem[np.tf := frame], m'.free, m'.end);
    SwapTransitive(m, Nobody, m2, Owner(np, sp'), m', Owner(np, sp'));
    CopyIsFork(m, p, par, m1, sp1, m2, np, sp', m');
  }
}
