/** freewalk: giving back the pages of a page table, subtree by subtree. */
module FreeWalk {
  import opened PageTable
  import opened Vm

  /** d lies in the subtree at n. */
  ghost predicate Under(n: Node, d: Node) {
    match n
    case Root => true
    case Mid(i) => d == n || (d.Low? && d.i == i)
    case Low(_, _) => d == n
  }

  /** The entry of n on the way to the node d below it. */
  ghost function Branch(n: Node, d: Node): nat {
    match d
    case Root => 0
    case Mid(i) => i
    case Low(i, j) => if n.Root? then i else j
  }

  function Height(n: Node): nat {
    match n
    case Root => 2
    case Mid(_) => 1
    case Low(_, _) => 0
  }

  /** Page p is a page of the subtree at n. */
  ghost predicate InTree(t: Tree, n: Node, p: nat) {
    p in t.own && Under(n, t.own[p])
  }

  /** Page p lies below n, in one of its first i branches. */
  ghost predicate InBranches(t: Tree, n: Node, i: nat, p: nat) {
    InTree(t, n, p) && t.own[p] != n && Branch(n, t.own[p]) < i
  }

  /** The subtree at n is as described, and none of its pages is free. */
  ghost predicate Intact(m: Phys, t: Tree, n: Node)
    requires Shape(t)
  {
    forall d {:trigger Under(n, d)} :: d in t.at && Under(n, d) ==>
      t.at[d] in m.mem && t.at[d] !in m.free && HoldsNode(m.mem[t.at[d]], t, d)
  }

  /** From m to m' exactly the pages of the subtree at n became free. */
  ghost predicate Freed(m: Phys, t: Tree, n: Node, m': Phys) {
    && PhysOk(m') && m'.end == m.end && m'.mem.Keys == m.mem.Keys
    && (forall p {:trigger InTree(t, n, p)} :: p in m'.free <==> p in m.free || InTree(t, n, p))
    && (forall p {:trigger SameAt(m.mem, m'.mem, p)} :: p in m.mem && !InTree(t, n, p) ==> SameAt(m.mem, m'.mem, p))
  }

  /** The first i branches of n became free; the later entries of n are still in place. */
  ghost predicate BranchesFreed(m: Phys, t: Tree, n: Node, i: nat, m': Phys)
    requires Shape(t) && n in t.at
  {
    && PhysOk(m') && m'.end == m.end && m'.mem.Keys == m.mem.Keys
    && (forall p {:trigger InBranches(t, n, i, p)} :: p in m'.free <==> p in m.free || InBranches(t, n, i, p))
    && (forall p {:trigger SameAt(m.mem, m'.mem, p)} ::
          p in m.mem && p != t.at[n] && !InBranches(t, n, i, p) ==> SameAt(m.mem, m'.mem, p))
    && t.at[n] in m'.mem
    && (forall k {:trigger Entry(t, n, k)} :: i <= k < NPTE ==> m'.mem[t.at[n]][k] == Entry(t, n, k))
  }

  /** The next branch is still intact. */
  lemma BranchIntact(m: Phys, t: Tree, n: Node, i: nat, m': Phys)
    requires Shape(t) && n in t.at && Child(n, i) in t.at && !n.Low?
    requires Intact(m, t, n) && BranchesFreed(m, t, n, i, m')
    ensures Intact(m', t, Child(n, i))
  {
    var c := Child(n, i);
    forall d | d in t.at && Under(c, d)
      ensures t.at[d] in m'.mem && t.at[d] !in m'.free && HoldsNode(m'.mem[t.at[d]], t, d)
    {
      assert Under(n, d);
      assert !InBranches(t, n, i, t.at[d]);
      assert SameAt(m.mem, m'.mem, t.at[d]);
    }
  }

  lemma NextBranch(t: Tree, n: Node, i: nat, p: nat)
    requires Shape(t) && n in t.at && Child(n, i) in t.at && !n.Low?
    ensures InBranches(t, n, i + 1, p) <==> InBranches(t, n, i, p) || InTree(t, Child(n, i), p)
  {
  }

  /** Branch i is freed as well, and its entry cleared. */
  lemma OneMoreBranch(m: Phys, t: Tree, n: Node, i: nat, m1: Phys, m2: Phys)
    requires Shape(t) && n in t.at && Child(n, i) in t.at && !n.Low? && i < NPTE
    requires BranchesFreed(m, t, n, i, m1) && Freed(m1, t, Child(n, i), m2)
    ensures t.at[n] in m2.mem
    ensures BranchesFreed(m, t, n, i + 1, Phys(Store(m2.mem, t.at[n], i, 0), m2.free, m2.end))
  {
    var c, page := Child(n, i), t.at[n];
    assert !InTree(t, c, page) && SameAt(m1.mem, m2.mem, page);
    var m3 := Phys(Store(m2.mem, page, i, 0), m2.free, m2.end);
    forall p: nat
      ensures p in m3.free <==> p in m.free || InBranches(t, n, i + 1, p)
    {
      NextBranch(t, n, i, p);
      assert p in m1.free <==> p in m.free || InBranches(t, n, i, p);
      assert p in m2.free ==> p in m1.free || InTree(t, c, p);
      assert InTree(t, c, p) ==> p in m2.free;
      assert p in m1.free ==> p in m2.free;
    }
    forall p | p in m.mem && p != page && !InBranches(t, n, i + 1, p)
      ensures SameAt(m.mem, m3.mem, p)
    {
      NextBranch(t, n, i, p);
      assert SameAt(m.mem, m1.mem, p) && SameAt(m1.mem, m2.mem, p);
    }
  }

  /** An entry that is not in use leaves nothing to do. */
  lemma EmptyBranch(m: Phys, t: Tree, n: Node, i: nat, m': Phys)
    requires Shape(t) && n in t.at && i < NPTE && BranchesFreed(m, t, n, i, m') && !IsValid(Entry(t, n, i))
    ensures BranchesFreed(m, t, n, i + 1, m')
  {
    forall p: nat
      ensures p in m'.free <==> p in m.free || InBranches(t, n, i + 1, p)
    {
      NothingInBranch(t, n, i, p);
    }
    forall p | p in m.mem && p != t.at[n] && !InBranches(t, n, i + 1, p)
      ensures SameAt(m.mem, m'.mem, p)
    {
      NothingInBranch(t, n, i, p);
    }
  }

  lemma NothingInBranch(t: Tree, n: Node, i: nat, p: nat)
    requires Shape(t) && n in t.at && i < NPTE && !IsValid(Entry(t, n, i))
    ensures InBranches(t, n, i + 1, p) <==> InBranches(t, n, i, p)
  {
    if InBranches(t, n, i + 1, p) && Branch(n, t.own[p]) == i {
      NoChildBelow(t, n, i, t.own[p]);
    }
  }

  lemma NoChildBelow(t: Tree, n: Node, i: nat, d: Node)
    requires Shape(t) && n in t.at && d in t.at && Under(n, d) && d != n && Branch(n, d) == i
    ensures !n.Low? && Child(n, i) in t.at && IsValid(Entry(t, n, i))
  {
    assert Parent(d) in t.at;
  }

  /** All branches and then the page of n itself. */
  lemma SubtreeFreed(m: Phys, t: Tree, n: Node, m1: Phys, junk: Page)
    requires Shape(t) && n in t.at && t.at[n] in m.mem && BranchesFreed(m, t, n, NPTE, m1)
    ensures Freed(m, t, n, Phys(m1.mem[t.at[n] := junk], m1.free + {t.at[n]}, m1.end))
  {
    var m2 := Phys(m1.mem[t.at[n] := junk], m1.free + {t.at[n]}, m1.end);
    forall p: nat
      ensures InTree(t, n, p) <==> InBranches(t, n, NPTE, p) || p == t.at[n]
    {
      if InTree(t, n, p) {
        assert NodeInRange(t.own[p]);
      }
    }
    forall p: nat
      ensures p in m2.free <==> p in m.free || InTree(t, n, p)
    {
      assert InTree(t, n, p) <==> InBranches(t, n, NPTE, p) || p == t.at[n];
    }
    forall p | p in m.mem && !InTree(t, n, p)
      ensures SameAt(m.mem, m2.mem, p)
    {
      assert !InBranches(t, n, NPTE, p) && SameAt(m.mem, m1.mem, p);
    }
  }

  /** No leaf below n is in one of the first i branches. */
  ghost predicate NoLeaves(t: Tree, n: Node, i: nat) {
    forall v {:trigger t.abs[v]} :: v in t.abs && Under(n, NodeAt(0, v)) ==> BranchOf(n, v) >= i
  }

  /** The entry of n on the way to page v. */
  ghost function BranchOf(n: Node, v: nat): nat { Px(Height(n), v) }

  lemma NextNoLeaves(t: Tree, n: Node, i: nat)
    requires Shape(t) && n in t.at && i < NPTE && NoLeaves(t, n, i)
    requires IsValid(Entry(t, n, i)) ==>
               !n.Low? && forall v {:trigger t.abs[v]} :: v in t.abs ==> !Under(Child(n, i), NodeAt(0, v))
    ensures NoLeaves(t, n, i + 1)
  {
    forall v | v in t.abs && Under(n, NodeAt(0, v))
      ensures BranchOf(n, v) >= i + 1
    {
      assert t.abs[v] == t.abs[v];
      VpnJoins(v);
      if BranchOf(n, v) == i && !n.Low? {
        NoChildBelow(t, n, i, NodeAt(0, v));
      }
    }
  }

  /** freewalk on the page of node n. It panics exactly if a leaf is left below n; otherwise
      exactly the pages of the subtree become free. */
  method Freewalk(m: Phys, page: nat, ghost t: Tree, ghost n: Node) returns (ok: bool, m': Phys, ghost leaf: nat)
    requires PhysOk(m) && Shape(t) && n in t.at && page == t.at[n] && Intact(m, t, n)
    ensures ok ==> Freed(m, t, n, m') && forall v :: v in t.abs ==> !Under(n, NodeAt(0, v))
    ensures !ok ==> leaf in t.abs && Under(n, NodeAt(0, leaf))
    decreases Height(n)
  {
    m', leaf := m, 0;
    assert Under(n, n);
    for i := 0 to NPTE
      invariant BranchesFreed(m, t, n, i, m') && NoLeaves(t, n, i)
    {
      assert m'.mem[page][i] == Entry(t, n, i);
      var pte := m'.mem[page][i];
      if IsValid(pte) && !IsLeaf(pte) {
        BranchIntact(m, t, n, i, m');
        ghost var m1 := m';
        ok, m', leaf := Freewalk(m', Pte2Pa(pte), t, Child(n, i));
        if !ok {
          return;
        }
        OneMoreBranch(m, t, n, i, m1, m');
        NextNoLeaves(t, n, i);
        m' := Phys(Store(m'.mem, page, i, 0), m'.free, m'.end);
      } else if IsValid(pte) {
        leaf := Vpn(n.i, n.j, i);
        VpnSplits(n.i, n.j, i);
        return false, m', leaf;
      } else {
        EmptyBranch(m, t, n, i, m');
        NextNoLeaves(t, n, i);
      }
    }
    assert !InBranches(t, n, NPTE, page);
    SubtreeFreed(m, t, n, m', Filled(0x101_0101_0101_0101));
    ok, m' := Kfree(m', page);
  }
}
