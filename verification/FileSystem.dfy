/** The inode layer of fs.c over the logical disk: what bread shows and log_write records.
    Allocation, block mapping, truncation, reading and writing of files. */
module FileSystem {
  import opened Bitmap
  import opened Blocks
  import opened Files
  import opened Seals

  // ---------- steps on the disk ----------

  /** What balloc leaves: block b marked and zeroed. */
  function Allocated(sb: Superblock, disk: seq<Block>, b: nat): (r: seq<Block>)
    requires Layout(sb, disk) && b < sb.size
    ensures Layout(sb, r)
  {
    Mark(disk, sb.bmapstart, b, true)[b := ZeroBlock()]
  }

  function Freed(sb: Superblock, disk: seq<Block>, b: nat): (r: seq<Block>)
    requires Layout(sb, disk) && b < sb.size
    ensures Layout(sb, r)
  {
    Mark(disk, sb.bmapstart, b, false)
  }

  /** The bitmap lies below the data blocks. */
  lemma BitmapBlock(sb: Superblock, disk: seq<Block>, b: nat)
    requires Layout(sb, disk) && b < sb.size
    ensures sb.bmapstart <= sb.bmapstart + b / BPB < sb.data
  {
  }

  lemma AllocatedFrame(sb: Superblock, disk: seq<Block>, b: nat)
    requires Layout(sb, disk) && sb.data <= b < sb.size
    ensures var r := Allocated(sb, disk, b);
            && r[b] == ZeroBlock()
            && (forall c: nat {:trigger UsedIn(sb, r, c)} :: c < sb.size ==>
                  (UsedIn(sb, r, c) <==> c == b || UsedIn(sb, disk, c)))
            && (forall c: nat {:trigger Kept(disk, r, c)} ::
                 c < sb.size && c != b && (c < sb.bmapstart || sb.data <= c) ==> Kept(disk, r, c))
  {
    BitmapBlock(sb, disk, b);
    var r, m := Allocated(sb, disk, b), Mark(disk, sb.bmapstart, b, true);
    forall c: nat | c < sb.size
      ensures UsedIn(sb, r, c) <==> c == b || UsedIn(sb, disk, c)
    {
      BitmapBlock(sb, disk, c);
      assert Used(m, sb.bmapstart, c) <==> Used(r, sb.bmapstart, c);
    }
  }

  lemma FreedFrame(sb: Superblock, disk: seq<Block>, b: nat)
    requires Layout(sb, disk) && b < sb.size
    ensures var r := Freed(sb, disk, b);
            && (forall c: nat {:trigger UsedIn(sb, r, c)} :: c < sb.size ==>
                  (UsedIn(sb, r, c) <==> c != b && UsedIn(sb, disk, c)))
            && (forall c: nat {:trigger Kept(disk, r, c)} :: c < sb.size && (c < sb.bmapstart || sb.data <= c) ==>
                  Kept(disk, r, c))
  {
    BitmapBlock(sb, disk, b);
    var r := Freed(sb, disk, b);
    forall c: nat | c < sb.size
      ensures UsedIn(sb, r, c) <==> c != b && UsedIn(sb, disk, c)
    {
      BitmapBlock(sb, disk, c);
    }
  }

  /** ip->addrs[k] = b for inode n. */
  function SetAddr(inodes: seq<Inode>, n: nat, k: nat, b: u32): (r: seq<Inode>)
    requires n < |inodes| && k <= NDIRECT
    ensures |r| == |inodes| && r[n].size == inodes[n].size && forall m :: 0 <= m < |r| && m != n ==> r[m] == inodes[m]
  {
    var addrs: Addrs := inodes[n].addrs[k := b];
    inodes[n := inodes[n].(addrs := addrs)]
  }

  lemma SetDirectRefs(disk: seq<Block>, inodes: seq<Inode>, n: nat, k: nat, b: u32, s: Slot)
    requires n < |inodes| && k < NDIRECT
    ensures Ref(disk, SetAddr(inodes, n, k, b), s) == if s == Direct(n, k) then b else Ref(disk, inodes, s)
  {
  }

  /** A zeroed block as the new indirect block refers to nothing. */
  lemma SetSingleRefs(disk: seq<Block>, inodes: seq<Inode>, n: nat, b: u32, s: Slot)
    requires n < |inodes| && inodes[n].addrs[NDIRECT] == 0 && 0 < b < |disk| && disk[b] == ZeroBlock()
    ensures Ref(disk, SetAddr(inodes, n, NDIRECT, b), s) == if s == Single(n) then b else Ref(disk, inodes, s)
  {
    if s.Indirect? && s.n == n && s.k < NINDIRECT {
      ZeroWords(s.k);
    }
  }

  /** a[k] = b in the indirect block of inode n. */
  function SetIndirect(disk: seq<Block>, a: nat, k: nat, b: u32): (r: seq<Block>)
    requires a < |disk| && k < NINDIRECT
    ensures |r| == |disk|
  {
    disk[a := PutWord(disk[a], k, b)]
  }

  // ---------- dinodes ----------

  /** The sixteen words of a struct dinode. */
  function DinodeWords(ip: Inode): (ws: seq<u32>)
    ensures |ws| == 16
  {
    [ip.kind + 0x1_0000 * ip.major, ip.minor + 0x1_0000 * ip.nlink, ip.size] + ip.addrs
  }

  function PutWords(b: Block, base: nat, ws: seq<u32>): (r: Block)
    requires base + |ws| <= NWORDS
    ensures forall j: nat {:trigger Word(r, j)} :: j < NWORDS ==>
              Word(r, j) == if base <= j < base + |ws| then ws[j - base] else Word(b, j)
    decreases |ws|
  {
    if |ws| == 0 then b else
      var last := |ws| - 1;
      PutWord(PutWords(b, base, ws[..last]), base + last, ws[last])
  }

  function GetWords(b: Block, base: nat, n: nat): (ws: seq<u32>)
    requires base + n <= NWORDS
    ensures |ws| == n && forall j: nat {:trigger ws[j]} :: j < n ==> ws[j] == Word(b, base + j)
  {
    if n == 0 then [] else GetWords(b, base, n - 1) + [Word(b, base + n - 1)]
  }

  function FromWords(ws: seq<u32>): Inode
    requires |ws| == 16
  {
    Inode(ws[0] % 0x1_0000, ws[0] / 0x1_0000, ws[1] % 0x1_0000, ws[1] / 0x1_0000, ws[2], ws[3..])
  }

  lemma WordsOfInode(ip: Inode)
    ensures FromWords(DinodeWords(ip)) == ip
  {
    assert DinodeWords(ip)[3..] == ip.addrs;
  }

  lemma WordsRoundTrip(b: Block, base: nat, ws: seq<u32>, other: nat)
    requires base + |ws| <= NWORDS && other + |ws| <= NWORDS
    ensures GetWords(PutWords(b, base, ws), base, |ws|) == ws
    ensures other + |ws| <= base || base + |ws| <= other ==>
              GetWords(PutWords(b, base, ws), other, |ws|) == GetWords(b, other, |ws|)
  {
  }

  /** ilock's reading of dinode i of a block. */
  function GetDinode(b: Block, i: nat): Inode
    requires i < IPB
  {
    FromWords(GetWords(b, 16 * i, 16))
  }

  /** iupdate's writing of it. */
  function PutDinode(b: Block, i: nat, ip: Inode): Block
    requires i < IPB
  {
    PutWords(b, 16 * i, DinodeWords(ip))
  }

  /** iupdate then ilock gives the inode back, and the other inodes of the block are untouched. */
  lemma DinodeRoundTrip(b: Block, i: nat, ip: Inode)
    requires i < IPB
    ensures GetDinode(PutDinode(b, i, ip), i) == ip
    ensures forall j: nat :: j < IPB && j != i ==> GetDinode(PutDinode(b, i, ip), j) == GetDinode(b, j)
  {
    WordsOfInode(ip);
    WordsRoundTrip(b, 16 * i, DinodeWords(ip), 16 * i);
    forall j: nat | j < IPB && j != i
      ensures GetDinode(PutDinode(b, i, ip), j) == GetDinode(b, j)
    {
      WordsRoundTrip(b, 16 * i, DinodeWords(ip), 16 * j);
    }
  }

  // ---------- taking a block ----------

  /** The state: the logical disk, the in-memory inodes, and who owns which block. */
  datatype View = View(disk: seq<Block>, inodes: seq<Inode>, owner: map<nat, Slot>)

  ghost predicate Sound(sb: Superblock, v: View) {
    Layout(sb, v.disk) && |v.inodes| == sb.ninodes && Owned(sb, v.disk, v.inodes, v.owner, {})
  }

  ghost predicate MetaKept<T>(sb: Superblock, d: seq<T>, d': seq<T>) {
    forall c: nat {:trigger Kept(d, d', c)} :: c < sb.bmapstart ==> Kept(d, d', c)
  }

  /** At most the addrs of inode n changed. */
  ghost predicate SameBut(inodes: seq<Inode>, inodes': seq<Inode>, n: nat) {
    && |inodes'| == |inodes| && n < |inodes|
    && (forall m {:trigger inodes'[m]} :: 0 <= m < |inodes| && m != n ==> inodes'[m] == inodes[m])
    && inodes'[n] == inodes[n].(addrs := inodes'[n].addrs)
  }

  /** From v to v' slot s took the free block b, zeroed, and nothing else changed. */
  ghost predicate Took(sb: Superblock, v: View, s: Slot, b: nat, v': View) {
    forall k: bool {:trigger Shown(k)} :: Shown(k) ==> Sound(sb, v') && Taking(sb, v, s, b, v')
  }

  ghost predicate Taking(sb: Superblock, v: View, s: Slot, b: nat, v': View) {
    && v'.owner == v.owner[b := s] && b !in v.owner
    && sb.data <= b < sb.size && !UsedIn(sb, v.disk, b) && b < |v'.disk| && v'.disk[b] == ZeroBlock()
    && Ref(v.disk, v.inodes, s) == 0 && Ref(v'.disk, v'.inodes, s) == b
    && (forall r {:trigger Ref(v'.disk, v'.inodes, r)} :: r != s ==>
          Ref(v'.disk, v'.inodes, r) == Ref(v.disk, v.inodes, r))
    && DataKept(v.disk, v'.disk, v.owner) && MetaKept(sb, v.disk, v'.disk) && SameBut(v.inodes, v'.inodes, s.n)
  }

  /** What balloc does: references and owned blocks stay. */
  lemma AllocatedRefs(sb: Superblock, v: View, b: nat)
    requires Sound(sb, v) && b < sb.size && !UsedIn(sb, v.disk, b)
    ensures sb.data <= b && b !in v.owner && OwnedKept(v.disk, Allocated(sb, v.disk, b), v.owner)
    ensures forall s {:trigger Ref(Allocated(sb, v.disk, b), v.inodes, s)} :: Ref(Allocated(sb, v.disk, b), v.inodes,
                                                                                  s) == Ref(v.disk, v.inodes, s)
  {
    AllocatedFrame(sb, v.disk, b);
    var d := Allocated(sb, v.disk, b);
    forall c | c in v.owner
      ensures Kept(v.disk, d, c)
    {
      assert v.owner[c] == v.owner[c];
    }
    forall s
      ensures Ref(d, v.inodes, s) == Ref(v.disk, v.inodes, s)
    {
      RefKept(sb, v.disk, v.inodes, v.owner, {}, d, s);
    }
  }

  lemma TakeDirect(sb: Superblock, v: View, n: nat, k: nat, b: nat)
    requires Sound(sb, v) && b < sb.size && !UsedIn(sb, v.disk, b)
    requires n < |v.inodes| && k < NDIRECT && v.inodes[n].addrs[k] == 0
    ensures Took(sb, v, Direct(n, k), b,
                 View(Allocated(sb, v.disk, b), SetAddr(v.inodes, n, k, b), v.owner[b := Direct(n, k)]))
  {
    var d, inodes', s := Allocated(sb, v.disk, b), SetAddr(v.inodes, n, k, b), Direct(n, k);
    AllocatedFrame(sb, v.disk, b);
    AllocatedRefs(sb, v, b);
    forall r
      ensures Ref(d, inodes', r) == if r == s then b else Ref(v.disk, v.inodes, r)
    {
      SetDirectRefs(d, v.inodes, n, k, b, r);
    }
    Taken(sb, v.disk, v.inodes, v.owner, s, b, d, inodes');
  }

  lemma TakeSingle(sb: Superblock, v: View, n: nat, b: nat)
    requires Sound(sb, v) && b < sb.size && !UsedIn(sb, v.disk, b)
    requires n < |v.inodes| && v.inodes[n].addrs[NDIRECT] == 0
    ensures Took(sb, v, Single(n), b,
                 View(Allocated(sb, v.disk, b), SetAddr(v.inodes, n, NDIRECT, b), v.owner[b := Single(n)]))
  {
    var d, inodes', s := Allocated(sb, v.disk, b), SetAddr(v.inodes, n, NDIRECT, b), Single(n);
    AllocatedFrame(sb, v.disk, b);
    AllocatedRefs(sb, v, b);
    forall r
      ensures Ref(d, inodes', r) == if r == s then b else Ref(v.disk, v.inodes, r)
    {
      SetSingleRefs(d, v.inodes, n, b, r);
    }
    Taken(sb, v.disk, v.inodes, v.owner, s, b, d, inodes');
  }

  lemma TakeIndirect(sb: Superblock, v: View, n: nat, k: nat, b: nat)
    requires Sound(sb, v) && b < sb.size && !UsedIn(sb, v.disk, b)
    requires n < |v.inodes| && k < NINDIRECT && v.inodes[n].addrs[NDIRECT] != 0 &&
             Ref(v.disk, v.inodes, Indirect(n, k)) == 0
    ensures v.inodes[n].addrs[NDIRECT] < sb.size
    ensures var d := SetIndirect(Allocated(sb, v.disk, b), v.inodes[n].addrs[NDIRECT], k, b);
            Took(sb, v, Indirect(n, k), b, View(d, v.inodes, v.owner[b := Indirect(n, k)]))
  {
    var s, a := Indirect(n, k), v.inodes[n].addrs[NDIRECT];
    assert Ref(v.disk, v.inodes, Single(n)) == a;
    assert a in v.owner && v.owner[a] == Single(n);
    AllocatedFrame(sb, v.disk, b);
    AllocatedRefs(sb, v, b);
    var d1 := Allocated(sb, v.disk, b);
    var d := SetIndirect(d1, a, k, b);
    forall r
      ensures Ref(d, v.inodes, r) == if r == s then b else Ref(v.disk, v.inodes, r)
    {
      IndirectRefs(sb, v, d1, n, k, b, r);
    }
    IndirectKeeps(sb, v, a, k, b);
    Taken(sb, v.disk, v.inodes, v.owner, s, b, d, v.inodes);
  }

  /** What the write of an indirect block leaves alone. */
  lemma IndirectKeeps(sb: Superblock, v: View, a: nat, k: nat, b: nat)
    requires Sound(sb, v) && b < sb.size && !UsedIn(sb, v.disk, b)
    requires a in v.owner && v.owner[a].Single? && sb.data <= a < sb.size && k < NINDIRECT
    ensures var d := SetIndirect(Allocated(sb, v.disk, b), a, k, b);
            && DataKept(v.disk, d, v.owner) && MetaKept(sb, v.disk, d)
            && forall c: nat {:trigger UsedIn(sb, d, c)} :: c < sb.size ==>
                 (UsedIn(sb, d, c) <==> c == b || UsedIn(sb, v.disk, c))
  {
    AllocatedFrame(sb, v.disk, b);
    AllocatedRefs(sb, v, b);
    var d1 := Allocated(sb, v.disk, b);
    var d := SetIndirect(d1, a, k, b);
    forall c: nat | c < sb.size
      ensures UsedIn(sb, d, c) <==> c == b || UsedIn(sb, v.disk, c)
    {
      BitmapBlock(sb, v.disk, c);
      assert UsedIn(sb, d1, c) <==> c == b || UsedIn(sb, v.disk, c);
    }
    forall c | c in v.owner && !v.owner[c].Single?
      ensures Kept(v.disk, d, c)
    {
      assert Kept(v.disk, d1, c);
    }
    forall c: nat | c < sb.bmapstart
      ensures Kept(v.disk, d, c)
    {
      assert Kept(v.disk, d1, c);
    }
  }

  lemma IndirectRefs(sb: Superblock, v: View, d1: seq<Block>, n: nat, k: nat, b: nat, r: Slot)
    requires Sound(sb, v) && |d1| == sb.size && b < 0x1_0000_0000
    requires n < |v.inodes| && k < NINDIRECT && v.inodes[n].addrs[NDIRECT] != 0 && v.inodes[n].addrs[NDIRECT] < sb.size
    requires forall s {:trigger Ref(d1, v.inodes, s)} :: Ref(d1, v.inodes, s) == Ref(v.disk, v.inodes, s)
    ensures Ref(SetIndirect(d1, v.inodes[n].addrs[NDIRECT], k, b), v.inodes, r) == if r == Indirect(n, k) then b
                                                                                   else Ref(v.disk, v.inodes, r)
  {
    assert Ref(d1, v.inodes, r) == Ref(v.disk, v.inodes, r);
    assert Ref(v.disk, v.inodes, Single(n)) in v.owner;
    if r.Indirect? && r.n < |v.inodes| {
      assert Ref(v.disk, v.inodes, Single(r.n)) != 0 ==> v.owner[Ref(v.disk, v.inodes, Single(r.n))] == Single(r.n);
    }
  }
}
