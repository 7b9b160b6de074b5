/** bmap: what a call does to the references of all slots and to the data of all files. */
module BlockMap {
  import opened Blocks
  import opened Files
  import opened FileSystem
  import opened Seals

  /** What bmap(ip, bn) does: the slot of block bn refers to addr; if it did before, nothing
      changed, and otherwise a zeroed free block was taken. Besides it, only the indirect
      block may have been taken. addr is 0 only if the disk is full. */
  ghost predicate BmapDone(sb: Superblock, v: View, v': View, n: nat, bn: nat, addr: nat) {
    forall k: bool {:trigger Shown(k)} :: Shown(k) ==> Sound(sb, v') && Mapping(sb, v, v', n, bn, addr)
  }

  ghost predicate Mapping(sb: Superblock, v: View, v': View, n: nat, bn: nat, addr: nat) {
    var s := SlotOf(n, bn);
    && Ref(v'.disk, v'.inodes, s) == addr
    && (Ref(v.disk, v.inodes, s) != 0 ==> v' == v)
    && (forall r {:trigger Ref(v'.disk, v'.inodes, r)} :: r != s && r != Single(n) ==>
          Ref(v'.disk, v'.inodes, r) == Ref(v.disk, v.inodes, r))
    && (forall b {:trigger v'.owner[b]} :: b in v.owner ==> b in v'.owner && v'.owner[b] == v.owner[b])
    && DataKept(v.disk, v'.disk, v.owner) && MetaKept(sb, v.disk, v'.disk) && SameBut(v.inodes, v'.inodes, n)
    && (Ref(v.disk, v.inodes, s) == 0 && addr != 0 ==>
          addr !in v.owner && addr < |v'.disk| && v'.disk[addr] == ZeroBlock())
    && (addr == 0 ==> forall b: nat {:trigger UsedIn(sb, v'.disk, b)} :: b < sb.size ==> UsedIn(sb, v'.disk, b))
  }

  lemma DataKeptTransitive<T>(d: seq<T>, d1: seq<T>, d2: seq<T>, owner: map<nat, Slot>, owner1: map<nat, Slot>)
    requires DataKept(d, d1, owner) && DataKept(d1, d2, owner1)
    requires forall b {:trigger owner[b]} :: b in owner ==> b in owner1 && owner1[b] == owner[b]
    ensures DataKept(d, d2, owner)
  {
    forall c | c in owner && !owner[c].Single?
      ensures Kept(d, d2, c)
    {
      assert Kept(d, d1, c) && Kept(d1, d2, c);
    }
  }

  lemma SameButTransitive(a: seq<Inode>, b: seq<Inode>, c: seq<Inode>, n: nat)
    requires SameBut(a, b, n) && SameBut(b, c, n)
    ensures SameBut(a, c, n)
  {
  }

  lemma MetaKeptTransitive<T>(sb: Superblock, d: seq<T>, d1: seq<T>, d2: seq<T>)
    requires MetaKept(sb, d, d1) && MetaKept(sb, d1, d2)
    ensures MetaKept(sb, d, d2)
  {
    forall c: nat | c < sb.bmapstart
      ensures Kept(d, d2, c)
    {
      assert Kept(d, d1, c) && Kept(d1, d2, c);
    }
  }

  lemma IndirectIsBmap(sb: Superblock, v: View, n: nat, k: nat, b: nat)
    requires Sound(sb, v) && b < sb.size && !UsedIn(sb, v.disk, b)
    requires n < |v.inodes| && k < NINDIRECT && v.inodes[n].addrs[NDIRECT] != 0 &&
             Ref(v.disk, v.inodes, Indirect(n, k)) == 0
    ensures v.inodes[n].addrs[NDIRECT] < sb.size && b != 0
    ensures var d := SetIndirect(Allocated(sb, v.disk, b), v.inodes[n].addrs[NDIRECT], k, b);
            BmapDone(sb, v, View(d, v.inodes, v.owner[b := Indirect(n, k)]), n, NDIRECT + k, b)
  {
    TakeIndirect(sb, v, n, k, b);
    var d := SetIndirect(Allocated(sb, v.disk, b), v.inodes[n].addrs[NDIRECT], k, b);
    TookSound(sb, v, Indirect(n, k), b, View(d, v.inodes, v.owner[b := Indirect(n, k)]));
    TookIsBmap(sb, v, View(d, v.inodes, v.owner[b := Indirect(n, k)]), n, NDIRECT + k, b);
  }

  /** The indirect block was taken, and then bmap went on. */
  lemma SingleThenBmap(sb: Superblock, v: View, a: nat, v1: View, v2: View, n: nat, bn: nat, addr: nat)
    requires NDIRECT <= bn && Took(sb, v, Single(n), a, v1) && BmapDone(sb, v1, v2, n, bn, addr)
    ensures BmapDone(sb, v, v2, n, bn, addr)
  {
    assert Shown(true);
    SingleThenMapping(sb, v, a, v1, v2, n, bn, addr);
  }

  lemma SingleThenMapping(sb: Superblock, v: View, a: nat, v1: View, v2: View, n: nat, bn: nat, addr: nat)
    requires NDIRECT <= bn && Taking(sb, v, Single(n), a, v1) && Mapping(sb, v1, v2, n, bn, addr)
    ensures Mapping(sb, v, v2, n, bn, addr)
  {
    SingleRefs(sb, v, a, v1, n, bn);
    assert v1.owner == v.owner[a := Single(n)] && a !in v.owner;
    DataKeptTransitive(v.disk, v1.disk, v2.disk, v.owner, v1.owner);
    MetaKeptTransitive(sb, v.disk, v1.disk, v2.disk);
    SameButTransitive(v.inodes, v1.inodes, v2.inodes, n);
    assert addr !in v1.owner ==> addr !in v.owner;
  }

  /** A file without an indirect block has no far blocks, and taking that block adds none. */
  lemma SingleRefs(sb: Superblock, v: View, a: nat, v1: View, n: nat, bn: nat)
    requires NDIRECT <= bn && Taking(sb, v, Single(n), a, v1)
    ensures Ref(v.disk, v.inodes, SlotOf(n, bn)) == Ref(v1.disk, v1.inodes, SlotOf(n, bn)) == 0
    ensures forall r {:trigger Ref(v.disk, v.inodes, r)} {:trigger Ref(v1.disk, v1.inodes, r)} ::
              r != Single(n) ==> Ref(v1.disk, v1.inodes, r) == Ref(v.disk, v.inodes, r)
  {
    assert Ref(v.disk, v.inodes, Single(n)) == 0;
  }

  lemma TookSound(sb: Superblock, v: View, s: Slot, b: nat, v': View)
    requires Took(sb, v, s, b, v')
    ensures Sound(sb, v') && Ref(v'.disk, v'.inodes, s) == b != 0
  {
    assert Shown(true);
  }

  /** A block that is there is found, and nothing changes. */
  lemma BmapFinds(sb: Superblock, v: View, v': View, n: nat, bn: nat, addr: nat)
    requires BmapDone(sb, v, v', n, bn, addr) && Ref(v.disk, v.inodes, SlotOf(n, bn)) != 0
    ensures v' == v && addr == Ref(v.disk, v.inodes, SlotOf(n, bn))
  {
    assert Shown(true);
  }

  lemma TookIsBmap(sb: Superblock, v: View, v': View, n: nat, bn: nat, addr: nat)
    requires Sound(sb, v) && Took(sb, v, SlotOf(n, bn), addr, v') && addr != 0
    ensures BmapDone(sb, v, v', n, bn, addr)
  {
    assert Shown(true);
  }

  lemma NoneTaken(sb: Superblock, v: View, n: nat, bn: nat)
    requires Sound(sb, v) && n < |v.inodes|
    requires Ref(v.disk, v.inodes, SlotOf(n, bn)) != 0 ||
             forall b: nat {:trigger UsedIn(sb, v.disk, b)} :: b < sb.size ==> UsedIn(sb, v.disk, b)
    ensures BmapDone(sb, v, v, n, bn, Ref(v.disk, v.inodes, SlotOf(n, bn)))
  {
    forall c | c in v.owner && !v.owner[c].Single?
      ensures Kept(v.disk, v.disk, c)
    {
      assert v.owner[c] == v.owner[c];
    }
  }
}
