/** Sv39 page tables, as the pages that hold them and as the map that they stand for.
    The pages form a tree of height three; a ghost description of the tree says which page
    is which node, and what is mapped. Physical memory is a map from page addresses to
    pages of 512 words. */
module PageTable {

  const PGSIZE: nat := 4096
  const NPTE: nat := 512
  const MAXVA: nat := 0x40_0000_0000
  const MAXVPN: nat := 0x400_0000         // MAXVA / PGSIZE
  const MAXPA: nat := 0x100_0000_0000_0000

  type u64 = x: int | 0 <= x < 0x1_0000_0000_0000_0000
  type Page = p: seq<u64> | |p| == NPTE witness seq(NPTE, i => 0)
  type Memory = map<nat, Page>

  function Filled(w: u64): (p: Page)
    ensures forall i :: 0 <= i < NPTE ==> p[i] == w
  {
    seq(NPTE, i => w)
  }

  // ---------- page table entries ----------

  const PTE_V: nat := 1
  const PTE_R: nat := 2
  const PTE_W: nat := 4
  const PTE_X: nat := 8
  const PTE_U: nat := 16

  predicate IsValid(pte: u64) { pte % 2 == 1 }

  /** pte & (PTE_R|PTE_W|PTE_X) */
  predicate IsLeaf(pte: u64) { pte / 2 % 8 != 0 }

  function Pte2Pa(pte: u64): nat { pte / 0x400 * PGSIZE }

  function PteFlags(pte: u64): nat { pte % 0x400 }

  predicate IsPageAddr(pa: nat) { pa % PGSIZE == 0 && pa < MAXPA }

  /** perm | PTE_V */
  function WithValid(perm: nat): nat { if perm % 2 == 1 then perm else perm + 1 }

  lemma PteBits(q: nat, f: nat)
    requires f < 0x400
    ensures (q * 0x400 + f) / 0x400 == q && (q * 0x400 + f) % 0x400 == f
    ensures (q * 0x400 + f) % 2 == f % 2 && (q * 0x400 + f) / 2 % 8 == f / 2 % 8
  {
    var x := q * 0x400 + f;
    EntryParts(x, q, f);
    HalfOf(x, q * 0x200, f);
    EighthPart(x / 2, q * 0x40, f / 2);
  }

  lemma EntryParts(x: nat, q: nat, f: nat)
    requires x == q * 0x400 + f && f < 0x400
    ensures x / 0x400 == q && x % 0x400 == f
  {
  }

  lemma HalfOf(x: nat, q: nat, f: nat)
    requires x == 2 * q + f
    ensures x % 2 == f % 2 && x / 2 == q + f / 2
  {
  }

  lemma EighthPart(x: nat, q: nat, f: nat)
    requires x == 8 * q + f
    ensures x % 8 == f % 8
  {
    assert f == f / 8 * 8 + f % 8;
    assert x == (q + f / 8) * 8 + f % 8;
  }

  /** PA2PTE(pa) | perm | PTE_V */
  function MakePte(pa: nat, perm: nat): (pte: u64)
    requires IsPageAddr(pa) && perm < 0x400
    ensures IsValid(pte) && Pte2Pa(pte) == pa && PteFlags(pte) == WithValid(perm)
    ensures IsLeaf(pte) <==> perm / 2 % 8 != 0
  {
    PteBits(pa / PGSIZE, WithValid(perm));
    pa / PGSIZE * 0x400 + WithValid(perm)
  }

  // ---------- virtual page numbers ----------

  /** The index PX(level, va), for an address in the page numbered vpn. */
  function Px(level: nat, vpn: nat): (i: nat)
    requires level <= 2
    ensures i < NPTE
  {
    if level == 0 then vpn % NPTE
    else if level == 1 then vpn / NPTE % NPTE
    else vpn / 0x4_0000 % NPTE
  }

  /** PX(level, va): (va >> (12 + 9 * level)) & 0x1FF. */
  function PxOf(level: nat, va: nat): (i: nat)
    requires level <= 2
    ensures i == Px(level, va / PGSIZE)
  {
    if level == 0 then va / 0x1000 % NPTE
    else if level == 1 then va / 0x20_0000 % NPTE
    else va / 0x4000_0000 % NPTE
  }

  /** The entry of the page numbered vpn in level-0 table (i, j). */
  function Vpn(i: nat, j: nat, k: nat): nat { (i * NPTE + j) * NPTE + k }

  lemma VpnSplits(i: nat, j: nat, k: nat)
    requires i < NPTE && j < NPTE && k < NPTE
    ensures Px(2, Vpn(i, j, k)) == i && Px(1, Vpn(i, j, k)) == j && Px(0, Vpn(i, j, k)) == k
  {
  }

  lemma VpnJoins(vpn: nat)
    requires vpn < 0x800_0000
    ensures Vpn(Px(2, vpn), Px(1, vpn), Px(0, vpn)) == vpn
  {
    var q := vpn / NPTE;
    assert vpn == q * NPTE + vpn % NPTE;
    assert q == q / NPTE * NPTE + q % NPTE;
    TwoLevels(vpn, q);
    assert q / NPTE % NPTE == q / NPTE;
  }

  lemma TwoLevels(vpn: nat, q: nat)
    requires q == vpn / NPTE && vpn < 0x800_0000
    ensures q / NPTE == vpn / 0x4_0000 < NPTE
  {
  }

  /** Distinct pages below MAXVA have distinct index triples. */
  lemma IndicesAreUnique(v: nat, w: nat)
    requires v < MAXVPN && w < MAXVPN
    requires Px(2, v) == Px(2, w) && Px(1, v) == Px(1, w) && Px(0, v) == Px(0, w)
    ensures v == w
  {
    VpnJoins(v);
    VpnJoins(w);
  }

  // ---------- the tree ----------

  datatype Node = Root | Mid(i: nat) | Low(i: nat, j: nat)

  /** at: the page of each node; own: the node of each page; abs: what is mapped. */
  datatype Tree = Tree(at: map<Node, nat>, own: map<nat, Node>, abs: map<nat, u64>)

  function Child(n: Node, j: nat): Node {
    match n
    case Root => Mid(j)
    case Mid(i) => Low(i, j)
    case Low(_, _) => Root   // level-0 tables have no children
  }

  function Parent(n: Node): Node {
    match n
    case Low(i, _) => Mid(i)
    case _ => Root
  }

  /** Entry k of node n. */
  function Entry(t: Tree, n: Node, k: nat): u64
    requires forall m {:trigger t.at[m]} :: m in t.at ==> IsPageAddr(t.at[m])
  {
    match n
    case Low(i, j) => if Vpn(i, j, k) in t.abs then t.abs[Vpn(i, j, k)] else 0
    case _ => if Child(n, k) in t.at then MakePte(t.at[Child(n, k)], 0) else 0
  }

  predicate NodeInRange(n: Node) {
    match n
    case Root => true
    case Mid(i) => i < NPTE
    case Low(i, j) => i < NPTE && j < NPTE
  }

  /** The description makes sense, whatever memory holds. */
  ghost predicate Shape(t: Tree) {
    && Root in t.at
    && (forall n {:trigger t.at[n]} :: n in t.at ==>
          NodeInRange(n) && IsPageAddr(t.at[n]) && t.at[n] in t.own && t.own[t.at[n]] == n)
    && (forall n {:trigger Parent(n)} :: n in t.at ==> Parent(n) in t.at)
    && (forall p {:trigger t.own[p]} :: p in t.own ==> t.own[p] in t.at && t.at[t.own[p]] == p)
    && (forall v {:trigger t.abs[v]} :: v in t.abs ==>
          v < MAXVPN && Low(Px(2, v), Px(1, v)) in t.at && IsValid(t.abs[v]) && IsLeaf(t.abs[v]))
  }

  /** The pages of the tree hold what the description says, entry by entry. */
  ghost predicate Holds(mem: Memory, t: Tree)
    requires Shape(t)
  {
    forall n {:trigger t.at[n]} :: n in t.at ==> t.at[n] in mem && HoldsNode(mem[t.at[n]], t, n)
  }

  ghost predicate HoldsNode(page: Page, t: Tree, n: Node)
    requires forall m {:trigger t.at[m]} :: m in t.at ==> IsPageAddr(t.at[m])
  {
    forall k :: 0 <= k < NPTE ==> page[k] == Entry(t, n, k)
  }

  ghost predicate TreeOk(mem: Memory, t: Tree) {
    Shape(t) && Holds(mem, t)
  }

  // ---------- changes ----------

  ghost predicate SameAt<T>(mem: map<nat, T>, mem': map<nat, T>, p: nat) {
    p in mem && p in mem' && mem'[p] == mem[p]
  }

  /** Writes elsewhere do not disturb a tree. */
  lemma TreeFrame(mem: Memory, mem': Memory, t: Tree)
    requires TreeOk(mem, t) && forall p :: p in t.own ==> SameAt(mem, mem', p)
    ensures TreeOk(mem', t)
  {
    forall n | n in t.at
      ensures t.at[n] in mem' && HoldsNode(mem'[t.at[n]], t, n)
    {
      assert t.at[n] in t.own;
    }
  }

  /** The index of a node in its parent. */
  function Index(n: Node): nat {
    match n
    case Root => 0
    case Mid(i) => i
    case Low(_, j) => j
  }

  function AddNode(t: Tree, n: Node, p: nat): Tree {
    Tree(t.at[n := p], t.own[p := n], t.abs)
  }

  /** Word k of page p becomes w. */
  function Store(mem: Memory, p: nat, k: nat, w: u64): Memory
    requires p in mem && k < NPTE
  {
    var page: Page := mem[p][k := w];
    mem[p := page]
  }

  /** Linking a zeroed page in as a new node. */
  function Linked(mem: Memory, t: Tree, n: Node, p: nat): Memory
    requires Parent(n) in t.at && t.at[Parent(n)] in mem && t.at[Parent(n)] != p && NodeInRange(n) && IsPageAddr(p)
  {
    Store(mem[p := Filled(0)], t.at[Parent(n)], Index(n), MakePte(p, 0))
  }

  lemma AddNodeShape(t: Tree, n: Node, p: nat)
    requires Shape(t) && n !in t.at && n != Root && NodeInRange(n) && Parent(n) in t.at
    requires IsPageAddr(p) && p !in t.own
    ensures Shape(AddNode(t, n, p))
  {
  }

  lemma AddNodeOk(mem: Memory, t: Tree, n: Node, p: nat)
    requires TreeOk(mem, t) && n !in t.at && n != Root && NodeInRange(n) && Parent(n) in t.at
    requires IsPageAddr(p) && p !in t.own && p in mem
    ensures t.at[Parent(n)] in mem && t.at[Parent(n)] != p
    ensures TreeOk(Linked(mem, t, n, p), AddNode(t, n, p))
    ensures forall q :: q in mem && q != p && q != t.at[Parent(n)] ==> SameAt(mem, Linked(mem, t, n, p), q)
  {
    var t', mem' := AddNode(t, n, p), Linked(mem, t, n, p);
    AddNodeShape(t, n, p);
    forall m | m in t'.at
      ensures t'.at[m] in mem' && HoldsNode(mem'[t'.at[m]], t', m)
    {
      if m == n {
        NewNodeIsEmpty(t, n, p);
      } else if m == Parent(n) {
        forall k | 0 <= k < NPTE
          ensures mem'[t'.at[m]][k] == Entry(t', m, k)
        {
          assert Child(m, Index(n)) == n;
          assert mem[t.at[m]][k] == Entry(t, m, k);
        }
      } else {
        assert t.at[m] in t.own;
        OtherEntries(t, n, p, m);
      }
    }
  }

  lemma NewNodeIsEmpty(t: Tree, n: Node, p: nat)
    requires Shape(t) && n !in t.at && n != Root && NodeInRange(n) && IsPageAddr(p)
    ensures HoldsNode(Filled(0), AddNode(t, n, p), n)
  {
    forall k | 0 <= k < NPTE
      ensures Entry(AddNode(t, n, p), n, k) == 0
    {
      if n.Low? {
        VpnSplits(n.i, n.j, k);
      } else {
        assert Parent(Child(n, k)) == n;
      }
    }
  }

  lemma OtherEntries(t: Tree, n: Node, p: nat, m: Node)
    requires Shape(t) && n != Root && IsPageAddr(p) && m != Parent(n)
    ensures forall k :: 0 <= k < NPTE ==> Entry(AddNode(t, n, p), m, k) == Entry(t, m, k)
  {
  }

  /** Writing a leaf entry, with pte, or clearing it, with 0. */
  function LeafSet(t: Tree, v: nat, pte: u64): Tree {
    Tree(t.at, t.own, Updated(t.abs, v, pte))
  }

  function Updated(abs: map<nat, u64>, v: nat, pte: u64): map<nat, u64> {
    if pte == 0 then abs - {v} else abs[v := pte]
  }

  lemma LeafSetOk(mem: Memory, t: Tree, v: nat, pte: u64)
    requires TreeOk(mem, t) && v < MAXVPN && Low(Px(2, v), Px(1, v)) in t.at
    requires pte == 0 || (IsValid(pte) && IsLeaf(pte))
    ensures var low := t.at[Low(Px(2, v), Px(1, v))];
            && low in t.own && low in mem
            && TreeOk(Store(mem, low, Px(0, v), pte), LeafSet(t, v, pte))
  {
    var n := Low(Px(2, v), Px(1, v));
    var low := t.at[n];
    var mem', t' := Store(mem, low, Px(0, v), pte), LeafSet(t, v, pte);
    VpnJoins(v);
    assert Shape(t');
    forall m | m in t'.at
      ensures t'.at[m] in mem' && HoldsNode(mem'[t'.at[m]], t', m)
    {
      assert t.at[m] in t.own;
      if m == n {
        forall k | 0 <= k < NPTE
          ensures mem'[low][k] == Entry(t', m, k)
        {
          assert mem[low][k] == Entry(t, m, k);
          VpnSplits(m.i, m.j, k);
        }
      } else {
        OtherLeaves(t, v, pte, m);
      }
    }
  }

  lemma OtherLeaves(t: Tree, v: nat, pte: u64, m: Node)
    requires Shape(t) && m in t.at && m != Low(Px(2, v), Px(1, v))
    ensures forall k :: 0 <= k < NPTE ==> Entry(LeafSet(t, v, pte), m, k) == Entry(t, m, k)
  {
    forall k | 0 <= k < NPTE
      ensures Entry(LeafSet(t, v, pte), m, k) == Entry(t, m, k)
    {
      if m.Low? {
        VpnSplits(m.i, m.j, k);
      }
    }
  }

  /** What hardware finds: the entry of a mapped page, through the three levels. */
  lemma LookupIsAbs(mem: Memory, t: Tree, v: nat)
    requires TreeOk(mem, t) && v < MAXVPN
    ensures var n1, n0 := Mid(Px(2, v)), Low(Px(2, v), Px(1, v));
            && (n1 in t.at <==> IsValid(mem[t.at[Root]][Px(2, v)]))
            && (n1 in t.at ==> t.at[n1] in mem && Pte2Pa(mem[t.at[Root]][Px(2, v)]) == t.at[n1]
                               && (n0 in t.at <==> IsValid(mem[t.at[n1]][Px(1, v)])))
            && (n0 in t.at ==> n1 in t.at && t.at[n0] in mem && Pte2Pa(mem[t.at[n1]][Px(1, v)]) == t.at[n0]
                               && mem[t.at[n0]][Px(0, v)] == if v in t.abs then t.abs[v] else 0)
            && (v in t.abs ==> n0 in t.at)
  {
    VpnJoins(v);
    var n1, n0 := Mid(Px(2, v)), Low(Px(2, v), Px(1, v));
    assert mem[t.at[Root]][Px(2, v)] == Entry(t, Root, Px(2, v));
    if n0 in t.at {
      assert Parent(n0) in t.at;
    }
    if n1 in t.at {
      assert mem[t.at[n1]][Px(1, v)] == Entry(t, n1, Px(1, v));
    }
    if n0 in t.at {
      assert mem[t.at[n0]][Px(0, v)] == Entry(t, n0, Px(0, v));
    }
  }
}
