/** The memory of processes: fork, exit, sbrk and page faults over address spaces. */
module ProcessMemory {
  import opened FreeWalk
  import opened PageTable
  import opened Seals
  import opened UserMemory
  import opened Vm

  // ---------- uvmcopy ----------

  /** What uvmcopy knows about the parent par while it works on the child: it is whole, and
      its pages hold what they held in m0. */
  ghost predicate ParentKept(m0: Phys, m: Phys, par: Space, sp: Space) {
    SpaceOk(m, par) && Separate(par, sp) && SameData(m0.mem, m.mem, par.lo)
  }

  lemma ParentStays(m0: Phys, m: Phys, sp: Space, m': Phys, sp': Space, par: Space)
    requires ParentKept(m0, m, par, sp) && Moves(m, sp, m', sp')
    ensures ParentKept(m0, m', par, sp')
  {
    OtherSpaceKept(m, sp, m', sp', par);
    SameDataTransitive(m0.mem, m.mem, m'.mem, par.lo, par.lo);
  }

  /** One round of uvmcopy, for page v. Filled also means that the parent has no page v. */
  method CopyPage(m: Phys, oldRoot: nat, newRoot: nat, v: nat, ghost par: Space, ghost sp: Space,
                  ghost m0: Phys, ghost sp0: Space, ghost wants: map<nat, Want<Page>>)
    returns (r: FillResult, m': Phys, ghost sp': Space, ghost wants': map<nat, Want<Page>>)
    requires Extends(m0, sp0, wants, m, sp) && newRoot == sp0.t.at[Root]
    requires ParentKept(m0, m, par, sp) && oldRoot == par.t.at[Root]
    requires v < USERVPN && wants == Wanted(m0.mem, par.t.abs, v)
    ensures Extends(m0, sp0, wants', m', sp') && ParentKept(m0, m', par, sp')
    ensures wants' == Wanted(m0.mem, par.t.abs, if r.Filled? then v + 1 else v)
    ensures r.Remap? ==> v in par.t.abs && v in sp0.t.abs
    ensures r.OutOfMemory? ==> |m.free| <= 2
    ensures r.Filled? ==> |m.free| <= |m'.free| + 3
  {
    WantedStep(m0.mem, par.t.abs, v);
    var source := ReadPage(m, oldRoot, v, par);
    if source.Hole? {
      return Filled, m, sp, wants;
    }
    assert SameAt(m0.mem, m.mem, Pte2Pa(par.t.abs[v]));
    r, m', sp', wants' := AddPage(m, newRoot, v, source.flags, source.data, sp, m0, sp0, wants);
    ParentStays(m0, m, sp, m', sp', par);
  }

  datatype CopyResult = Copied | CopyFailed | CopyPanicked

  /** On success the child has exactly the parent's pages below sz besides its own, with equal
      flags and bytes. On failure it loses its first stop pages, those just copied among them. */
  method Uvmcopy(m: Phys, oldRoot: nat, newRoot: nat, sz: nat, ghost par: Space, ghost sp: Space)
    returns (r: CopyResult, m': Phys, ghost sp': Space, ghost stop: nat)
    requires SpaceOk(m, par) && SpaceOk(m, sp) && Separate(par, sp)
    requires oldRoot == par.t.at[Root] && newRoot == sp.t.at[Root] && sz <= TRAPFRAME
    ensures Moves(m, sp, m', sp')
    ensures r.Copied? ==> Extends(m, sp, Wanted(m.mem, par.t.abs, Pages(sz)), m', sp')
    ensures r.CopyFailed? ==> stop < Pages(sz) && Unmapped(m, sp, 0, stop, m', sp') && |m.free| < 3 * Pages(sz)
    ensures r.CopyPanicked? ==> stop < Pages(sz) && stop in par.t.abs && stop in sp.t.abs
  {
    var fr, i;
    ghost var wants;
    fr, i, m', sp', wants := CopyRun(m, oldRoot, newRoot, Pages(sz), par, sp);
    stop := i;
    if fr.Remap? {
      return CopyPanicked, m', sp', stop;
    }
    if fr.OutOfMemory? {
      m', sp' := UndoCopy(m', newRoot, i, sp', m, sp, wants);
      return CopyFailed, m', sp', stop;
    }
    r := Copied;
  }

  /** uvmcopy's loop over the first n pages. i is the page at which it stopped. */
  method CopyRun(m: Phys, oldRoot: nat, newRoot: nat, n: nat, ghost par: Space, ghost sp: Space)
    returns (r: FillResult, i: nat, m': Phys, ghost sp': Space, ghost wants: map<nat, Want<Page>>)
    requires SpaceOk(m, par) && SpaceOk(m, sp) && Separate(par, sp)
    requires oldRoot == par.t.at[Root] && newRoot == sp.t.at[Root] && n <= USERVPN
    ensures Extends(m, sp, wants, m', sp') && wants == Wanted(m.mem, par.t.abs, i)
    ensures if r.Filled? then i == n else i < n
    ensures r.Remap? ==> i in par.t.abs && i in sp.t.abs
    ensures r.OutOfMemory? ==> |m.free| < 3 * n
  {
    m', sp', r, i, wants := m, sp, Filled, 0, map[];
    NothingAdded(m, sp);
    ParentUnread(m, par);
    while i < n
      invariant r.Filled? && i <= n
      invariant Extends(m, sp, wants, m', sp') && ParentKept(m, m', par, sp')
      invariant wants == Wanted(m.mem, par.t.abs, i)
      invariant |m.free| <= |m'.free| + 3 * i
    {
      r, m', sp', wants := CopyPage(m', oldRoot, newRoot, i, par, sp', m, sp, wants);
      if !r.Filled? {
        return;
      }
      i := i + 1;
    }
  }

  lemma ParentUnread(m: Phys, par: Space)
    requires SpaceOk(m, par)
    ensures SameData(m.mem, m.mem, par.lo)
  {
    assert Open(true);
  }

  /** uvmcopy's retreat. */
  method UndoCopy(m: Phys, root: nat, i: nat, ghost sp: Space, ghost m0: Phys, ghost sp0: Space,
                  ghost wants: map<nat, Want<Page>>)
    returns (m': Phys, ghost sp': Space)
    requires SpaceOk(m0, sp0) && Extends(m0, sp0, wants, m, sp) && root == sp0.t.at[Root]
    requires i <= USERVPN && forall w :: w in wants ==> w < i
    ensures Unmapped(m0, sp0, 0, i, m', sp')
  {
    var ok;
    ok, m', sp' := Uvmunmap(m, root, 0, i, true, sp);
    AddedThenUnmapped(m0, sp0, wants, m, sp, 0, i, m', sp');
  }

  // ---------- uvmfree ----------

  /** The space is gone: its pages are free. */
  ghost predicate GivenBack(m: Phys, sp: Space, m': Phys) {
    && PhysOk(m') && m'.end == m.end && m'.mem.Keys == m.mem.Keys
    && (forall p {:trigger InPool(m, sp, p)} :: p in m'.free <==> InPool(m, sp, p))
    && (forall p {:trigger SameAt(m.mem, m'.mem, p)} :: p in m.mem && !InPool(m, sp, p) ==> SameAt(m.mem, m'.mem, p))
  }

  lemma MovedThenGivenBack(m: Phys, sp: Space, m1: Phys, sp1: Space, m2: Phys)
    requires Moves(m, sp, m1, sp1) && GivenBack(m1, sp1, m2)
    ensures GivenBack(m, sp, m2)
  {
    assert Shown(true);
    forall p
      ensures p in m2.free <==> InPool(m, sp, p)
    {
      assert InPool(m1, sp1, p) <==> InPool(m, sp, p);
    }
    forall p | p in m.mem && !InPool(m, sp, p)
      ensures SameAt(m.mem, m2.mem, p)
    {
      assert SameAt(m.mem, m1.mem, p) && !InPool(m1, sp1, p) && SameAt(m1.mem, m2.mem, p);
    }
  }

  /** With no leaves left, the table pages are all there is. */
  lemma TreeIsAll(m: Phys, sp: Space, m': Phys)
    requires SpaceOk(m, sp) && (forall v :: v !in sp.t.abs) && Freed(m, sp.t, Root, m')
    ensures GivenBack(m, sp, m')
  {
    assert Open(true);
    forall p
      ensures InTree(sp.t, Root, p) || p in m.free <==> InPool(m, sp, p)
    {
    }
    forall p
      ensures p in m'.free <==> InPool(m, sp, p)
    {
      assert p in m'.free ==> p in m.free || InTree(sp.t, Root, p);
      assert InTree(sp.t, Root, p) ==> p in m'.free;
    }
  }

  lemma RootIsIntact(m: Phys, sp: Space)
    requires SpaceOk(m, sp)
    ensures PhysOk(m) && Shape(sp.t) && Intact(m, sp.t, Root)
  {
    assert Open(true);
  }

  /** uvmfree panics exactly if a page at or above sz is mapped; otherwise everything goes. */
  method Uvmfree(m: Phys, root: nat, sz: nat, ghost sp: Space) returns (ok: bool, m': Phys)
    requires SpaceOk(m, sp) && root == sp.t.at[Root] && sz <= TRAPFRAME
    ensures ok <==> forall v :: v in sp.t.abs ==> v < Pages(sz)
    ensures ok ==> GivenBack(m, sp, m')
  {
    m' := m;
    ghost var sp1, leaf := sp, 0;
    NothingUnmapped(m, sp, 0);
    if sz > 0 {
      var aligned;
      aligned, m', sp1 := Uvmunmap(m, root, 0, Pages(sz), true, sp);
    }
    ghost var m1 := m';
    RootIsIntact(m', sp1);
    ok, m', leaf := Freewalk(m', root, sp1.t, Root);
    if ok {
      forall v | v in sp.t.abs
        ensures v < Pages(sz)
      {
        assert v !in Minus(sp.t.abs, 0, Pages(sz));
      }
      TreeIsAll(m1, sp1, m');
      MovedThenGivenBack(m, sp, m1, sp1, m');
    }
  }
}
