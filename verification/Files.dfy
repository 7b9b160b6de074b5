/** Inodes and the blocks they refer to. A data block is in use exactly if one slot refers to
    it: a direct slot of an inode, its indirect slot, or a slot in its indirect block. */
module Files {
  import opened Bitmap
  import opened Blocks

  const NDIRECT: nat := 12
  const NINDIRECT: nat := 256       // BSIZE / sizeof(uint)
  const MAXFILE: nat := 268

  type u16 = x: int | 0 <= x < 0x1_0000
  type Addrs = a: seq<u32> | |a| == 13 witness seq(13, i => 0)

  datatype Inode = Inode(kind: u16, major: u16, minor: u16, nlink: u16, size: u32, addrs: Addrs)

  /** data is the first block that is not metadata. */
  datatype Superblock = Superblock(size: nat, ninodes: nat, inodestart: nat, bmapstart: nat, data: nat)

  const IPB: nat := 16              // inodes per block

  predicate Layout(sb: Superblock, disk: seq<Block>) {
    && |disk| == sb.size < 0x1_0000_0000 && 0 < sb.inodestart
    && sb.inodestart + sb.ninodes / IPB < sb.bmapstart
    && sb.bmapstart + sb.size / BPB < sb.data <= sb.size
  }

  datatype Slot = Direct(n: nat, k: nat) | Single(n: nat) | Indirect(n: nat, k: nat)

  /** The block that a slot refers to, or 0. */
  function Ref(disk: seq<Block>, inodes: seq<Inode>, s: Slot): u32 {
    if s.n >= |inodes| then 0 else
      var addrs := inodes[s.n].addrs;
      match s
      case Direct(_, k) => if k < NDIRECT then addrs[k] else 0
      case Single(_) => addrs[NDIRECT]
      case Indirect(_, k) => if k < NINDIRECT && 0 < addrs[NDIRECT] < |disk| then Word(disk[addrs[NDIRECT]], k) else 0
  }

  ghost predicate UsedIn(sb: Superblock, disk: seq<Block>, b: nat) {
    sb.bmapstart + b / BPB < |disk| && Used(disk, sb.bmapstart, b)
  }

  /** owner is the inverse of Ref, leaving aside the slots in gone, and the bitmap marks
      exactly the metadata blocks and the blocks with an owner. */
  ghost predicate Owned(sb: Superblock, disk: seq<Block>, inodes: seq<Inode>, owner: map<nat, Slot>, gone: set<Slot>) {
    && 0 < sb.data
    && (forall s {:trigger Ref(disk, inodes, s)} :: Ref(disk, inodes, s) != 0 && s !in gone ==>
          Ref(disk, inodes, s) in owner && owner[Ref(disk, inodes, s)] == s)
    && (forall b {:trigger owner[b]} :: b in owner ==>
          sb.data <= b < sb.size && owner[b] !in gone && Ref(disk, inodes, owner[b]) == b)
    && (forall b: nat {:trigger UsedIn(sb, disk, b)} :: b < sb.size ==>
          (UsedIn(sb, disk, b) <==> b < sb.data || b in owner))
  }

  /** A block in use has exactly one owner. */
  lemma OneOwner(sb: Superblock, disk: seq<Block>, inodes: seq<Inode>, owner: map<nat, Slot>, b: nat)
    requires Owned(sb, disk, inodes, owner, {}) && sb.data <= b < sb.size
    ensures UsedIn(sb, disk, b) <==> exists s :: Ref(disk, inodes, s) == b
    ensures forall s, s' :: Ref(disk, inodes, s) == b == Ref(disk, inodes, s') ==> s == s'
  {
    assert UsedIn(sb, disk, b) <==> b in owner;
    if b in owner {
      assert Ref(disk, inodes, owner[b]) == b;
    }
  }

  /** Only slot s changes, from nothing to b, which was free: b is taken. */
  lemma Taken(sb: Superblock, disk: seq<Block>, inodes: seq<Inode>, owner: map<nat, Slot>, s: Slot, b: nat,
              disk': seq<Block>, inodes': seq<Inode>)
    requires Owned(sb, disk, inodes, owner, {}) && b < sb.size && !UsedIn(sb, disk, b)
    requires Ref(disk, inodes, s) == 0 && Ref(disk', inodes', s) == b
    requires forall r {:trigger Ref(disk', inodes', r)} :: r != s ==> Ref(disk', inodes', r) == Ref(disk, inodes, r)
    requires forall c: nat {:trigger UsedIn(sb, disk', c)} :: c < sb.size ==>
               (UsedIn(sb, disk', c) <==> c == b || UsedIn(sb, disk, c))
    ensures b !in owner && sb.data <= b
    ensures Owned(sb, disk', inodes', owner[b := s], {})
  {
    assert b !in owner && sb.data <= b;
    forall r | Ref(disk', inodes', r) != 0
      ensures Ref(disk', inodes', r) in owner[b := s] && owner[b := s][Ref(disk', inodes', r)] == r
    {
      if r != s {
        assert Ref(disk, inodes, r) in owner && owner[Ref(disk, inodes, r)] == r;
      }
    }
    forall c | c in owner
      ensures Ref(disk', inodes', owner[c]) == c
    {
      assert Ref(disk, inodes, owner[c]) == c;
    }
    forall c: nat | c < sb.size
      ensures UsedIn(sb, disk', c) <==> c < sb.data || c in owner[b := s]
    {
      assert UsedIn(sb, disk', c) <==> c == b || UsedIn(sb, disk, c);
    }
  }

  /** The block of slot s is given up, and the slot no longer counts. */
  lemma GivenUp(sb: Superblock, disk: seq<Block>, inodes: seq<Inode>, owner: map<nat, Slot>, gone: set<Slot>,
                s: Slot, b: nat, disk': seq<Block>, inodes': seq<Inode>, gone': set<Slot>)
    requires Owned(sb, disk, inodes, owner, gone) && b in owner && owner[b] == s
    requires forall r {:trigger Ref(disk', inodes', r)} :: r != s ==> Ref(disk', inodes', r) == Ref(disk, inodes, r)
    requires forall r :: r != s ==> (r in gone' <==> r in gone)
    requires Ref(disk', inodes', s) == 0 || s in gone'
    requires forall c: nat {:trigger UsedIn(sb, disk', c)} :: c < sb.size ==>
               (UsedIn(sb, disk', c) <==> c != b && UsedIn(sb, disk, c))
    ensures Owned(sb, disk', inodes', owner - {b}, gone')
  {
    forall r | Ref(disk', inodes', r) != 0 && r !in gone'
      ensures Ref(disk', inodes', r) in owner - {b} && (owner - {b})[Ref(disk', inodes', r)] == r
    {
      assert r != s;
      assert Ref(disk, inodes, r) in owner && owner[Ref(disk, inodes, r)] == r;
    }
    forall c | c in owner - {b}
      ensures (owner - {b})[c] !in gone' && Ref(disk', inodes', (owner - {b})[c]) == c
    {
      assert Ref(disk, inodes, owner[c]) == c && Ref(disk, inodes, s) == b;
    }
    forall c: nat | c < sb.size
      ensures UsedIn(sb, disk', c) <==> c < sb.data || c in owner - {b}
    {
      assert UsedIn(sb, disk', c) <==> c != b && UsedIn(sb, disk, c);
    }
  }

  // ---------- contents ----------

  ghost predicate Kept<T>(d: seq<T>, d': seq<T>, c: nat) {
    c < |d| && c < |d'| && d'[c] == d[c]
  }

  /** The blocks with an owner keep their contents. */
  ghost predicate OwnedKept<T>(d: seq<T>, d': seq<T>, owner: map<nat, Slot>) {
    |d'| == |d| && forall c {:trigger Kept(d, d', c)} :: c in owner ==> Kept(d, d', c)
  }

  lemma RefKept(sb: Superblock, disk: seq<Block>, inodes: seq<Inode>, owner: map<nat, Slot>, gone: set<Slot>,
                disk': seq<Block>, s: Slot)
    requires Owned(sb, disk, inodes, owner, gone) && OwnedKept(disk, disk', owner) && Single(s.n) !in gone
    ensures Ref(disk', inodes, s) == Ref(disk, inodes, s)
  {
    if s.Indirect? && s.n < |inodes| {
      var a := Ref(disk, inodes, Single(s.n));
      if 0 < a {
        assert Kept(disk, disk', a);
      }
    }
  }

  /** The slot for block bn of file n. */
  function SlotOf(n: nat, bn: nat): (s: Slot)
    ensures s.n == n && !s.Single?
  {
    if bn < NDIRECT then Direct(n, bn) else Indirect(n, bn - NDIRECT)
  }

  function ByteAt(disk: seq<Block>, inodes: seq<Inode>, n: nat, k: nat): byte {
    var b := Ref(disk, inodes, SlotOf(n, k / BSIZE));
    if b < |disk| then disk[b][k % BSIZE] else 0
  }

  /** The file as a flat byte sequence. */
  function Content(disk: seq<Block>, inodes: seq<Inode>, n: nat): (c: seq<byte>)
    requires n < |inodes|
  {
    seq(inodes[n].size, k requires k >= 0 => ByteAt(disk, inodes, n, k))
  }

  /** Every block index below the size is allocated. */
  ghost predicate NoHoles(disk: seq<Block>, inodes: seq<Inode>, n: nat)
    requires n < |inodes|
  {
    && inodes[n].size <= MAXFILE * BSIZE
    && forall bn: nat {:trigger SlotOf(n, bn)} :: bn * BSIZE < inodes[n].size ==> Ref(disk, inodes, SlotOf(n, bn)) != 0
  }

  /** Data blocks keep their contents, and so do the files that refer to them. */
  ghost predicate DataKept<T>(d: seq<T>, d': seq<T>, owner: map<nat, Slot>) {
    |d'| == |d| && forall c {:trigger Kept(d, d', c)} :: c in owner && !owner[c].Single? ==> Kept(d, d', c)
  }

  lemma ByteKept(sb: Superblock, disk: seq<Block>, inodes: seq<Inode>, owner: map<nat, Slot>, disk': seq<Block>,
                 inodes': seq<Inode>, n: nat, k: nat)
    requires Owned(sb, disk, inodes, owner, {}) && DataKept(disk, disk', owner)
    requires var s := SlotOf(n, k / BSIZE); Ref(disk, inodes, s) != 0 && Ref(disk', inodes', s) == Ref(disk, inodes, s)
    ensures ByteAt(disk', inodes', n, k) == ByteAt(disk, inodes, n, k)
  {
    assert Kept(disk, disk', Ref(disk, inodes, SlotOf(n, k / BSIZE)));
  }

  /** A file whose slots stay put keeps its contents. */
  lemma ContentKept(sb: Superblock, disk: seq<Block>, inodes: seq<Inode>, owner: map<nat, Slot>, disk': seq<Block>,
                    inodes': seq<Inode>, n: nat)
    requires Owned(sb, disk, inodes, owner, {}) && DataKept(disk, disk', owner)
    requires n < |inodes| == |inodes'| && NoHoles(disk, inodes, n) && inodes'[n].size == inodes[n].size
    requires forall bn: nat {:trigger SlotOf(n, bn)} :: bn * BSIZE < inodes[n].size ==>
               Ref(disk', inodes', SlotOf(n, bn)) == Ref(disk, inodes, SlotOf(n, bn))
    ensures NoHoles(disk', inodes', n) && Content(disk', inodes', n) == Content(disk, inodes, n)
  {
    forall k: nat | k < inodes[n].size
      ensures ByteAt(disk', inodes', n, k) == ByteAt(disk, inodes, n, k)
    {
      assert k / BSIZE * BSIZE <= k;
      ByteKept(sb, disk, inodes, owner, disk', inodes', n, k);
    }
  }
}
