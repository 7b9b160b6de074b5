/** The memory of a process as the process sees it, and what growing, shrinking, faulting and
    forking make of it. */
module FlatMemory {
  import opened PageTable
  import opened ProcCalls
  import opened ProcPages
  import opened Seals
  import opened UserMemory
  import opened Vm

  /** The size, the pages of user memory with their flags and contents, and the saved registers. */
  datatype Flat = Flat(sz: nat, pages: map<nat, Want<Page>>, frame: seq<u64>)

  ghost function FlatOf(m: Phys, o: Owner): Flat {
    if o.Owner? && o.p.tf in m.mem
    then Flat(o.p.sz, Wanted(m.mem, o.sp.t.abs, USERVPN), m.mem[o.p.tf][..TRAPFRAMEWORDS])
    else Flat(0, map[], [])
  }

  /** The process sees g; sealed. */
  ghost predicate Sees(m: Phys, o: Owner, g: Flat) {
    forall k: bool {:trigger Shown(k)} :: Shown(k) ==> FlatOf(m, o) == g
  }

  lemma Seen(m: Phys, o: Owner, g: Flat)
    requires Sees(m, o, g)
    ensures FlatOf(m, o) == g
  {
    assert Shown(true);
  }

  /** The page behind a mapped user address is a page of the space. */
  lemma UserPage(m: Phys, sp: Space, v: nat)
    requires SpaceOk(m, sp) && v in sp.t.abs && v < USERVPN
    ensures Pte2Pa(sp.t.abs[v]) in sp.lo && Pte2Pa(sp.t.abs[v]) in m.mem
  {
    assert Open(true);
  }

  /** Who keeps all its pages keeps its memory. */
  lemma FlatKept(m: Phys, o: Owner, m': Phys)
    requires o.Owner? && ProcOk(m, o.p, o.sp) && forall q :: Owns(o, q) ==> SameAt(m.mem, m'.mem, q)
    ensures FlatOf(m', o) == FlatOf(m, o)
  {
    var abs := o.sp.t.abs;
    assert Owns(o, o.p.tf);
    forall v | v in abs && v < USERVPN
      ensures SameAt(m.mem, m'.mem, Pte2Pa(abs[v]))
    {
      UserPage(m, o.sp, v);
      assert Owns(o, Pte2Pa(abs[v]));
    }
  }

  /** The saved registers stay while pages move between the space and the free pages. */
  lemma FrameKept(m: Phys, p: Proc, sp: Space, m': Phys, sp': Space)
    requires ProcOk(m, p, sp) && Moves(m, sp, m', sp')
    ensures SameAt(m.mem, m'.mem, p.tf)
  {
    assert Shown(true);
    assert !InPool(m, sp, p.tf);
  }

  /** g is f with the pages in wants besides, whatever their sizes; sealed. */
  ghost predicate Gained(f: Flat, wants: map<nat, Want<Page>>, g: Flat) {
    forall k: bool {:trigger Beneath(k)} :: Beneath(k) ==> g.frame == f.frame && g.pages == f.pages + wants
  }

  /** g is f without the n pages from a on, whatever their sizes; sealed. */
  ghost predicate Lost(f: Flat, a: nat, n: nat, g: Flat) {
    forall k: bool {:trigger Beneath(k)} :: Beneath(k) ==>
      g.frame == f.frame && g.pages == map v | v in f.pages && !(a <= v < a + n) :: f.pages[v]
  }

  lemma ExtendedFlat(m: Phys, p: Proc, sp: Space, wants: map<nat, Want<Page>>, m': Phys, p': Proc, sp': Space)
    requires ProcOk(m, p, sp) && Extends(m, sp, wants, m', sp') && p'.tf == p.tf
    ensures var f, g := FlatOf(m, Owner(p, sp)), FlatOf(m', Owner(p', sp'));
            f.sz == p.sz && g.sz == p'.sz && Gained(f, wants, g)
  {
    FrameKept(m, p, sp, m', sp');
    forall v | v in sp.t.abs && v < USERVPN
      ensures SameAt(m.mem, m'.mem, Pte2Pa(sp.t.abs[v]))
    {
      UserPage(m, sp, v);
    }
    AddedPages(m.mem, sp.t.abs, wants, m'.mem, sp'.t.abs);
  }

  lemma AddedPages<T>(mem: map<nat, T>, abs: map<nat, u64>, wants: map<nat, Want<T>>, mem': map<nat, T>,
                      abs': map<nat, u64>)
    requires Adds(abs, wants, mem', abs')
    requires forall v {:trigger abs[v]} :: v in abs && v < USERVPN ==> SameAt(mem, mem', Pte2Pa(abs[v]))
    ensures Wanted(mem', abs', USERVPN) == Wanted(mem, abs, USERVPN) + wants
  {
    var after, before := Wanted(mem', abs', USERVPN), Wanted(mem, abs, USERVPN);
    forall v
      ensures v in after <==> v in before || v in wants
      ensures v in after ==> after[v] == if v in wants then wants[v] else before[v]
    {
      AddedPage(mem, abs, wants, mem', abs', v);
    }
    Merged(before, wants, after);
  }

  lemma Merged<T>(a: map<nat, T>, b: map<nat, T>, c: map<nat, T>)
    requires forall v {:trigger v in c} :: v in c <==> v in a || v in b
    requires forall v {:trigger c[v]} :: v in c ==> c[v] == if v in b then b[v] else a[v]
    ensures c == a + b
  {
  }

  lemma AddedPage<T>(mem: map<nat, T>, abs: map<nat, u64>, wants: map<nat, Want<T>>, mem': map<nat, T>,
                     abs': map<nat, u64>, v: nat)
    requires Adds(abs, wants, mem', abs') && (v in abs && v < USERVPN ==> SameAt(mem, mem', Pte2Pa(abs[v])))
    ensures var after, before := Wanted(mem', abs', USERVPN), Wanted(mem, abs, USERVPN);
            && (v in after <==> v in before || v in wants)
            && (v in after ==> after[v] == if v in wants then wants[v] else before[v])
  {
    if v in wants {
      assert MapsTo(mem', abs', v, wants[v]);
    }
  }

  lemma UnmappedFlat(m: Phys, p: Proc, sp: Space, a: nat, n: nat, m': Phys, p': Proc, sp': Space)
    requires ProcOk(m, p, sp) && Unmapped(m, sp, a, n, m', sp') && p'.tf == p.tf
    ensures var f, g := FlatOf(m, Owner(p, sp)), FlatOf(m', Owner(p', sp'));
            f.sz == p.sz && g.sz == p'.sz && Lost(f, a, n, g)
  {
    FrameKept(m, p, sp, m', sp');
    forall v | v in sp'.t.abs && v < USERVPN
      ensures SameAt(m.mem, m'.mem, Pte2Pa(sp'.t.abs[v]))
    {
      UserPage(m', sp', v);
    }
  }

  lemma RestoredFlat(m: Phys, p: Proc, sp: Space, m': Phys, sp': Space)
    requires ProcOk(m, p, sp) && Restored(m, sp, m', sp')
    ensures Sees(m', Owner(p, sp'), FlatOf(m, Owner(p, sp)))
  {
    FrameKept(m, p, sp, m', sp');
    forall v | v in sp.t.abs && v < USERVPN
      ensures SameAt(m.mem, m'.mem, Pte2Pa(sp.t.abs[v]))
    {
      UserPage(m, sp, v);
    }
  }

  /** fork returns 0 in the child. */
  function ChildFrame(frame: seq<u64>): seq<u64> {
    if A0 < |frame| then frame[A0 := 0] else frame
  }

  lemma ForkedFlat(m: Phys, p: Proc, par: Space, m': Phys, np: Proc, sp: Space)
    requires ForkedFrom(m, p, par, m', np, sp)
    ensures var f := FlatOf(m, Owner(p, par));
            FlatOf(m', Owner(np, sp)) == f.(frame := ChildFrame(f.frame))
  {
    var f, g := FlatOf(m, Owner(p, par)), FlatOf(m', Owner(np, sp));
    forall v
      ensures v in g.pages <==> v in f.pages
      ensures v in g.pages ==> g.pages[v] == f.pages[v]
    {
      if v in par.t.abs && v < USERVPN {
        assert MapsTo(m'.mem, sp.t.abs, v, Want(PteFlags(par.t.abs[v]), m.mem[Pte2Pa(par.t.abs[v])]));
      }
    }
    assert g.pages == f.pages;
    assert g.frame == ChildFrame(f.frame);
  }

  lemma NewFlat(m: Phys, p: Proc, tramp: nat, sp: Space)
    requires p.tf in m.mem && IsPageAddr(p.tf) && IsPageAddr(tramp) && sp.t.abs == KernelPart(p.tf, tramp)
    ensures FlatOf(m, Owner(p, sp)) == Flat(p.sz, map[], m.mem[p.tf][..TRAPFRAMEWORDS])
  {
    assert Wanted(m.mem, sp.t.abs, USERVPN) == map[];
  }
}
