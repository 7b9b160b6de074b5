/** What happens to the bytes of files when blocks are taken and written. */
module FileContent {
  import opened BlockMap
  import opened Blocks
  import opened Files
  import opened FileSystem
  import opened Seals

  function PutBytes(b: Block, at: nat, chunk: seq<byte>): (r: Block)
    requires at + |chunk| <= BSIZE
    ensures forall i {:trigger r[i]} :: 0 <= i < BSIZE ==>
              r[i] == if at <= i < at + |chunk| then chunk[i - at] else b[i]
  {
    b[..at] + chunk + b[at + |chunk|..]
  }

  /** Bytes written into data block b. */
  function WriteData(v: View, b: nat, at: nat, chunk: seq<byte>): View
    requires b < |v.disk| && at + |chunk| <= BSIZE
  {
    View(v.disk[b := PutBytes(v.disk[b], at, chunk)], v.inodes, v.owner)
  }

  lemma WriteDataRefs(sb: Superblock, v: View, s: Slot, at: nat, chunk: seq<byte>, r: Slot)
    requires Sound(sb, v) && !s.Single? && Ref(v.disk, v.inodes, s) != 0 && at + |chunk| <= BSIZE
    ensures sb.data <= Ref(v.disk, v.inodes, s) < |v.disk|
    ensures Ref(WriteData(v, Ref(v.disk, v.inodes, s), at, chunk).disk, v.inodes, r) == Ref(v.disk, v.inodes, r)
  {
    var b := Ref(v.disk, v.inodes, s);
    assert v.owner[b] == s;
    if r.Indirect? && r.n < |v.inodes| {
      assert Ref(v.disk, v.inodes, Single(r.n)) != 0 ==> v.owner[Ref(v.disk, v.inodes, Single(r.n))] == Single(r.n);
    }
  }

  lemma WriteDataSound(sb: Superblock, v: View, s: Slot, at: nat, chunk: seq<byte>)
    requires Sound(sb, v) && !s.Single? && Ref(v.disk, v.inodes, s) != 0 && at + |chunk| <= BSIZE
    ensures sb.data <= Ref(v.disk, v.inodes, s) < |v.disk|
    ensures var v' := WriteData(v, Ref(v.disk, v.inodes, s), at, chunk);
            Sound(sb, v') && MetaKept(sb, v.disk, v'.disk)
  {
    WriteDataRefs(sb, v, s, at, chunk, s);
    var b := Ref(v.disk, v.inodes, s);
    var v' := WriteData(v, b, at, chunk);
    forall r
      ensures Ref(v'.disk, v'.inodes, r) == Ref(v.disk, v.inodes, r)
    {
      WriteDataRefs(sb, v, s, at, chunk, r);
    }
    forall c: nat | c < sb.size
      ensures UsedIn(sb, v'.disk, c) <==> UsedIn(sb, v.disk, c)
    {
      BitmapBlock(sb, v.disk, c);
    }
    SameRefsSound(sb, v, v'.disk, v'.inodes);
  }

  /** The same references and the same bitmap: the same owners. */
  lemma SameRefsSound(sb: Superblock, v: View, disk': seq<Block>, inodes': seq<Inode>)
    requires Sound(sb, v) && |disk'| == |v.disk| && |inodes'| == |v.inodes|
    requires forall r {:trigger Ref(disk', inodes', r)} :: Ref(disk', inodes', r) == Ref(v.disk, v.inodes, r)
    requires forall c: nat {:trigger UsedIn(sb, disk', c)} :: c < sb.size ==>
               (UsedIn(sb, disk', c) <==> UsedIn(sb, v.disk, c))
    ensures Sound(sb, View(disk', inodes', v.owner))
  {
    forall r | Ref(disk', inodes', r) != 0
      ensures Ref(disk', inodes', r) in v.owner && v.owner[Ref(disk', inodes', r)] == r
    {
      assert Ref(v.disk, v.inodes, r) != 0;
    }
    forall b | b in v.owner
      ensures Ref(disk', inodes', v.owner[b]) == b
    {
      assert Ref(v.disk, v.inodes, v.owner[b]) == b;
    }
  }

  /** Exactly the bytes of the chunk change. */
  lemma WriteDataBytes(sb: Superblock, v: View, n: nat, bn: nat, at: nat, chunk: seq<byte>, m: nat, k: nat)
    requires Sound(sb, v) && Ref(v.disk, v.inodes, SlotOf(n, bn)) != 0 && at + |chunk| <= BSIZE
    requires Ref(v.disk, v.inodes, SlotOf(m, k / BSIZE)) != 0
    ensures Ref(v.disk, v.inodes, SlotOf(n, bn)) < |v.disk|
    ensures var v' := WriteData(v, Ref(v.disk, v.inodes, SlotOf(n, bn)), at, chunk);
            && Ref(v'.disk, v'.inodes, SlotOf(m, k / BSIZE)) != 0
            && ByteAt(v'.disk, v'.inodes, m, k) ==
               if m == n && k / BSIZE == bn && at <= k % BSIZE < at + |chunk| then chunk[k % BSIZE - at]
               else ByteAt(v.disk, v.inodes, m, k)
  {
    var s, s' := SlotOf(n, bn), SlotOf(m, k / BSIZE);
    WriteDataRefs(sb, v, s, at, chunk, s');
    var b, c := Ref(v.disk, v.inodes, s), Ref(v.disk, v.inodes, s');
    assert v.owner[b] == s && v.owner[c] == s';
  }

  // ---------- writei ----------

  ghost predicate HasBlock(v: View, n: nat, k: nat) {
    Ref(v.disk, v.inodes, SlotOf(n, k / BSIZE)) != 0
  }

  /** The files other than n are as in v0. */
  ghost predicate OthersSame(v0: View, v: View, n: nat) {
    && |v.inodes| == |v0.inodes|
    && forall m: nat {:trigger NoHoles(v.disk, v.inodes, m)} :: m < |v0.inodes| && m != n ==>
         NoHoles(v.disk, v.inodes, m) && Content(v.disk, v.inodes, m) == Content(v0.disk, v0.inodes, m)
  }

  /** Byte k of file n while writei puts the first tot bytes of src at off. */
  ghost predicate Placed(v0: View, v: View, n: nat, off: nat, src: seq<byte>, tot: nat, k: nat)
    requires tot <= |src|
  {
    HasBlock(v, n, k) &&
    ByteAt(v.disk, v.inodes, n, k) == if off <= k < off + tot then src[k - off] else ByteAt(v0.disk, v0.inodes, n, k)
  }

  ghost predicate Writing(sb: Superblock, v0: View, v: View, n: nat, off: nat, src: seq<byte>, tot: nat)
    requires tot <= |src| && n < |v0.inodes|
  {
    && Sound(sb, v) && SameBut(v0.inodes, v.inodes, n)
    && forall k: bool {:trigger Shown(k)} :: Shown(k) ==> WritingOpen(sb, v0, v, n, off, src, tot)
  }

  ghost predicate WritingOpen(sb: Superblock, v0: View, v: View, n: nat, off: nat, src: seq<byte>, tot: nat)
    requires tot <= |src| && n < |v0.inodes|
  {
    && MetaKept(sb, v0.disk, v.disk) && OthersSame(v0, v, n)
    && forall k: nat {:trigger Placed(v0, v, n, off, src, tot, k)} :: k < v0.inodes[n].size || k < off + tot ==>
         Placed(v0, v, n, off, src, tot, k)
  }

  lemma BmapKeepsOthers(sb: Superblock, v0: View, v: View, v1: View, n: nat, bn: nat, addr: nat)
    requires Sound(sb, v) && OthersSame(v0, v, n) && BmapDone(sb, v, v1, n, bn, addr)
    ensures OthersSame(v0, v1, n)
  {
    assert Shown(true);
    forall m: nat | m < |v0.inodes| && m != n
      ensures NoHoles(v1.disk, v1.inodes, m) && Content(v1.disk, v1.inodes, m) == Content(v0.disk, v0.inodes, m)
    {
      assert NoHoles(v.disk, v.inodes, m);
      assert SameBut(v.inodes, v1.inodes, n);
      assert 0 <= m < |v.inodes| && m != n;
      assert v1.inodes[m] == v.inodes[m];
      ContentKept(sb, v.disk, v.inodes, v.owner, v1.disk, v1.inodes, m);
    }
  }

  lemma BmapKeepsWriting(sb: Superblock, v0: View, v: View, n: nat, off: nat, src: seq<byte>, tot: nat, v1: View,
                         bn: nat, addr: nat)
    requires tot <= |src| && n < |v0.inodes| && Sound(sb, v) && Writing(sb, v0, v, n, off, src, tot)
    requires BmapDone(sb, v, v1, n, bn, addr)
    ensures Writing(sb, v0, v1, n, off, src, tot) && Ref(v1.disk, v1.inodes, SlotOf(n, bn)) == addr
    ensures addr == 0 ==> forall b: nat {:trigger UsedIn(sb, v1.disk, b)} :: b < sb.size ==> UsedIn(sb, v1.disk, b)
  {
    assert Shown(true);
    BmapKeepsOthers(sb, v0, v, v1, n, bn, addr);
    SameButTransitive(v0.inodes, v.inodes, v1.inodes, n);
    MetaKeptTransitive(sb, v0.disk, v.disk, v1.disk);
    forall k: nat | k < v0.inodes[n].size || k < off + tot
      ensures Placed(v0, v1, n, off, src, tot, k)
    {
      assert Placed(v0, v, n, off, src, tot, k);
      ByteKept(sb, v.disk, v.inodes, v.owner, v1.disk, v1.inodes, n, k);
    }
  }

  lemma WriteKeepsOthers(sb: Superblock, v0: View, v: View, n: nat, bn: nat, at: nat, chunk: seq<byte>)
    requires Sound(sb, v) && OthersSame(v0, v, n) && Ref(v.disk, v.inodes, SlotOf(n, bn)) != 0 && at + |chunk| <= BSIZE
    ensures Ref(v.disk, v.inodes, SlotOf(n, bn)) < |v.disk|
    ensures OthersSame(v0, WriteData(v, Ref(v.disk, v.inodes, SlotOf(n, bn)), at, chunk), n)
  {
    WriteDataSound(sb, v, SlotOf(n, bn), at, chunk);
    var v' := WriteData(v, Ref(v.disk, v.inodes, SlotOf(n, bn)), at, chunk);
    forall m: nat | m < |v0.inodes| && m != n
      ensures NoHoles(v'.disk, v'.inodes, m) && Content(v'.disk, v'.inodes, m) == Content(v0.disk, v0.inodes, m)
    {
      assert NoHoles(v.disk, v.inodes, m);
      forall bm: nat | bm * BSIZE < v.inodes[m].size
        ensures Ref(v'.disk, v'.inodes, SlotOf(m, bm)) != 0
      {
        WriteDataRefs(sb, v, SlotOf(n, bn), at, chunk, SlotOf(m, bm));
      }
      forall k: nat | k < v.inodes[m].size
        ensures ByteAt(v'.disk, v'.inodes, m, k) == ByteAt(v.disk, v.inodes, m, k)
      {
        assert k / BSIZE * BSIZE <= k && Ref(v.disk, v.inodes, SlotOf(m, k / BSIZE)) != 0;
        WriteDataBytes(sb, v, n, bn, at, chunk, m, k);
      }
      assert Content(v'.disk, v'.inodes, m) == Content(v.disk, v.inodes, m);
    }
  }

  /** The next chunk, up to the end of a block. */
  lemma ChunkWritten(sb: Superblock, v0: View, v: View, n: nat, off: nat, src: seq<byte>, tot: nat, len: nat)
    requires tot + len <= |src| && n < |v0.inodes| && Writing(sb, v0, v, n, off, src, tot)
    requires HasBlock(v, n, off + tot) && (off + tot) % BSIZE + len <= BSIZE
    ensures Ref(v.disk, v.inodes, SlotOf(n, (off + tot) / BSIZE)) < |v.disk|
    ensures Writing(sb, v0,
                    WriteData(v, Ref(v.disk, v.inodes, SlotOf(n, (off + tot) / BSIZE)), (off + tot) % BSIZE,
                              src[tot..tot + len]), n, off, src, tot + len)
  {
    assert Shown(true);
    var bn, at, chunk := (off + tot) / BSIZE, (off + tot) % BSIZE, src[tot..tot + len];
    WriteDataSound(sb, v, SlotOf(n, bn), at, chunk);
    var v' := WriteData(v, Ref(v.disk, v.inodes, SlotOf(n, bn)), at, chunk);
    WriteKeepsOthers(sb, v0, v, n, bn, at, chunk);
    MetaKeptTransitive(sb, v0.disk, v.disk, v'.disk);
    var upto := tot + len;
    forall k: nat | k < v0.inodes[n].size || k < off + upto
      ensures Placed(v0, v', n, off, src, upto, k)
    {
      if k < v0.inodes[n].size || k < off + tot {
        assert Placed(v0, v, n, off, src, tot, k);
      } else {
        SameBlock(off + tot, k, len);
      }
      WriteDataBytes(sb, v, n, bn, at, chunk, n, k);
      ChunkByte(off, tot, len, k);
    }
  }

  lemma SameBlock(p: nat, k: nat, len: nat)
    requires p <= k < p + len && p % BSIZE + len <= BSIZE
    ensures k / BSIZE == p / BSIZE && k % BSIZE == p % BSIZE + (k - p)
  {
  }

  lemma ChunkByte(off: nat, tot: nat, len: nat, k: nat)
    requires (off + tot) % BSIZE + len <= BSIZE
    ensures off + tot <= k < off + tot + len <==>
            k / BSIZE == (off + tot) / BSIZE && (off + tot) % BSIZE <= k % BSIZE < (off + tot) % BSIZE + len
    ensures off + tot <= k < off + tot + len ==> k % BSIZE - (off + tot) % BSIZE == k - (off + tot)
  {
    if off + tot <= k < off + tot + len {
      SameBlock(off + tot, k, len);
    }
  }

  /** c with s written at off, growing as needed. */
  function Splice(c: seq<byte>, off: nat, s: seq<byte>): seq<byte>
    requires off <= |c|
  {
    c[..off] + s + if off + |s| < |c| then c[off + |s|..] else []
  }

  /** Type, major, minor and nlink are the same. */
  predicate SameAttributes(a: Inode, b: Inode) { b == a.(size := b.size, addrs := b.addrs) }

  function SetSize(inodes: seq<Inode>, n: nat, size: u32): (r: seq<Inode>)
    requires n < |inodes|
    ensures |r| == |inodes| &&
            forall m :: 0 <= m < |r| ==> r[m].addrs == inodes[m].addrs && (m != n ==> r[m] == inodes[m])
    ensures SameAttributes(inodes[n], r[n]) && r[n].size == size
  {
    inodes[n := inodes[n].(size := size)]
  }

  /** The size has no part in references. */
  lemma SizeRefs(disk: seq<Block>, inodes: seq<Inode>, n: nat, size: u32, r: Slot)
    requires n < |inodes|
    ensures Ref(disk, SetSize(inodes, n, size), r) == Ref(disk, inodes, r)
  {
  }

  lemma SetSizeKeeps(sb: Superblock, v: View, n: nat, size: u32)
    requires Sound(sb, v) && n < |v.inodes|
    ensures var inodes' := SetSize(v.inodes, n, size);
            && Sound(sb, View(v.disk, inodes', v.owner))
            && (forall m: nat {:trigger NoHoles(v.disk, inodes', m)} ::
                  m < |v.inodes| && m != n && NoHoles(v.disk, v.inodes, m) ==>
                    NoHoles(v.disk, inodes', m) && Content(v.disk, inodes', m) == Content(v.disk, v.inodes, m))
  {
    var inodes' := SetSize(v.inodes, n, size);
    forall r
      ensures Ref(v.disk, inodes', r) == Ref(v.disk, v.inodes, r)
    {
      SizeRefs(v.disk, v.inodes, n, size, r);
    }
    SameRefsSound(sb, v, v.disk, inodes');
    forall m: nat | m < |v.inodes| && m != n && NoHoles(v.disk, v.inodes, m)
      ensures NoHoles(v.disk, inodes', m) && Content(v.disk, inodes', m) == Content(v.disk, v.inodes, m)
    {
      forall c | c in v.owner && !v.owner[c].Single?
        ensures Kept(v.disk, v.disk, c)
      {
        assert v.owner[c] == v.owner[c];
      }
      ContentKept(sb, v.disk, v.inodes, v.owner, v.disk, inodes', m);
    }
  }

  function Max(a: nat, b: nat): nat { if a < b then b else a }

  function Min(a: nat, b: nat): nat { if a < b then a else b }

  /** When the size is brought up to date, the file is the old one with the bytes spliced in. */
  lemma WritingDone(sb: Superblock, v0: View, v: View, n: nat, off: nat, src: seq<byte>, tot: nat)
    requires tot <= |src| && n < |v0.inodes| && Writing(sb, v0, v, n, off, src, tot)
    requires off <= v0.inodes[n].size && NoHoles(v0.disk, v0.inodes, n) && off + tot <= MAXFILE * BSIZE
    ensures var inodes' := SetSize(v.inodes, n, Max(v0.inodes[n].size, off + tot));
            && Sound(sb, View(v.disk, inodes', v.owner)) && OthersSame(v0, View(v.disk, inodes', v.owner), n)
            && NoHoles(v.disk, inodes', n)
            && Content(v.disk, inodes', n) == Splice(Content(v0.disk, v0.inodes, n), off, src[..tot])
  {
    assert Shown(true);
    var size := Max(v0.inodes[n].size, off + tot);
    var inodes' := SetSize(v.inodes, n, size);
    SetSizeKeeps(sb, v, n, size);
    forall m: nat | m < |v0.inodes| && m != n
      ensures NoHoles(v.disk, inodes', m) && Content(v.disk, inodes', m) == Content(v0.disk, v0.inodes, m)
    {
      assert NoHoles(v.disk, v.inodes, m);
    }
    forall bn: nat | bn * BSIZE < size
      ensures Ref(v.disk, inodes', SlotOf(n, bn)) != 0
    {
      assert Placed(v0, v, n, off, src, tot, bn * BSIZE);
      assert bn * BSIZE / BSIZE == bn;
      SizeRefs(v.disk, v.inodes, n, size, SlotOf(n, bn));
    }
    var c, c' := Content(v0.disk, v0.inodes, n), Content(v.disk, inodes', n);
    forall k: nat | k < size
      ensures c'[k] == Splice(c, off, src[..tot])[k]
    {
      assert Placed(v0, v, n, off, src, tot, k);
      SizeRefs(v.disk, v.inodes, n, size, SlotOf(n, k / BSIZE));
    }
  }

  // ---------- iupdate ----------

  /** iupdate's write of inode n. */
  function StoreInode(sb: Superblock, disk: seq<Block>, n: nat, ip: Inode): (r: seq<Block>)
    requires Layout(sb, disk) && n < sb.ninodes
    ensures |r| == |disk|
  {
    var c := sb.inodestart + n / IPB;
    disk[c := PutDinode(disk[c], n % IPB, ip)]
  }

  /** Inode n is on the disk. */
  predicate Stored(sb: Superblock, v: View, n: nat)
    requires Layout(sb, v.disk) && n < |v.inodes| == sb.ninodes
  {
    GetDinode(v.disk[sb.inodestart + n / IPB], n % IPB) == v.inodes[n]
  }

  lemma StoredNow(sb: Superblock, v: View, n: nat, m: nat)
    requires Layout(sb, v.disk) && n < |v.inodes| == sb.ninodes && m < |v.inodes|
    requires m != n ==> Stored(sb, v, m)
    ensures Stored(sb, View(StoreInode(sb, v.disk, n, v.inodes[n]), v.inodes, v.owner), m)
  {
    DinodeAt(v.disk, sb.inodestart + n / IPB, n % IPB, v.inodes[n], sb.inodestart + m / IPB, m % IPB);
    if m != n && m / IPB == n / IPB {
      OtherPlace(m, n);
    }
  }

  /** One place of one block changes. */
  lemma DinodeAt(disk: seq<Block>, c: nat, i: nat, ip: Inode, c': nat, j: nat)
    requires c < |disk| && c' < |disk| && i < IPB && j < IPB
    ensures GetDinode(disk[c := PutDinode(disk[c], i, ip)][c'], j) ==
            if c' == c && j == i then ip else GetDinode(disk[c'], j)
  {
    DinodeRoundTrip(disk[c], i, ip);
  }

  lemma OtherPlace(m: nat, n: nat)
    requires m != n && m / IPB == n / IPB
    ensures m % IPB != n % IPB
  {
    assert m == m / IPB * IPB + m % IPB && n == n / IPB * IPB + n % IPB;
  }

  lemma StoredStill(sb: Superblock, v: View, v': View, m: nat)
    requires Layout(sb, v.disk) && Layout(sb, v'.disk) && m < |v.inodes| == |v'.inodes| == sb.ninodes
    requires MetaKept(sb, v.disk, v'.disk) && v'.inodes[m] == v.inodes[m] && Stored(sb, v, m)
    ensures Stored(sb, v', m)
  {
    assert Kept(v.disk, v'.disk, sb.inodestart + m / IPB);
  }

  /** Writing an inode block changes no reference and no file. */
  lemma StoreKeeps(sb: Superblock, v: View, n: nat)
    requires Sound(sb, v) && n < |v.inodes|
    ensures var v' := View(StoreInode(sb, v.disk, n, v.inodes[n]), v.inodes, v.owner);
            && Sound(sb, v')
            && (forall m: nat {:trigger NoHoles(v'.disk, v'.inodes, m)} ::
                  m < |v.inodes| && NoHoles(v.disk, v.inodes, m) ==>
                    NoHoles(v'.disk, v'.inodes, m) && Content(v'.disk, v'.inodes, m) == Content(v.disk, v.inodes, m))
  {
    var d := StoreInode(sb, v.disk, n, v.inodes[n]);
    forall c | c in v.owner
      ensures Kept(v.disk, d, c)
    {
      assert v.owner[c] == v.owner[c];
    }
    forall r
      ensures Ref(d, v.inodes, r) == Ref(v.disk, v.inodes, r)
    {
      RefKept(sb, v.disk, v.inodes, v.owner, {}, d, r);
    }
    forall c: nat | c < sb.size
      ensures UsedIn(sb, d, c) <==> UsedIn(sb, v.disk, c)
    {
      BitmapBlock(sb, v.disk, c);
    }
    SameRefsSound(sb, v, d, v.inodes);
    forall m: nat | m < |v.inodes| && NoHoles(v.disk, v.inodes, m)
      ensures NoHoles(d, v.inodes, m) && Content(d, v.inodes, m) == Content(v.disk, v.inodes, m)
    {
      ContentKept(sb, v.disk, v.inodes, v.owner, d, v.inodes, m);
    }
  }

  // ---------- the whole ----------

  /** Between operations: every block in use has one owner, no file has a hole, and every
      inode is on the disk. */
  ghost predicate FsOk(sb: Superblock, v: View) {
    && Layout(sb, v.disk) && |v.inodes| == sb.ninodes
    && forall k: bool {:trigger Open(k)} :: Open(k) ==> FsOkOpen(sb, v)
  }

  ghost predicate FsOkOpen(sb: Superblock, v: View) {
    && Sound(sb, v)
    && (forall m: nat {:trigger NoHoles(v.disk, v.inodes, m)} :: m < |v.inodes| ==> NoHoles(v.disk, v.inodes, m))
    && (forall m: nat {:trigger Stored(sb, v, m)} :: m < |v.inodes| ==> Stored(sb, v, m))
  }

  lemma FsSound(sb: Superblock, v: View, n: nat)
    requires FsOk(sb, v) && n < |v.inodes|
    ensures Sound(sb, v) && NoHoles(v.disk, v.inodes, n)
  {
    assert Open(true);
  }

  /** From v to v' the files other than n have the same contents and inodes, and of inode n only
      size and addrs may differ. */
  ghost predicate OthersUntouched(v: View, v': View, n: nat) {
    && |v'.inodes| == |v.inodes| && n < |v.inodes| && SameAttributes(v.inodes[n], v'.inodes[n])
    && forall m: nat {:trigger v'.inodes[m]} :: m < |v.inodes| && m != n ==>
         v'.inodes[m] == v.inodes[m] && Content(v'.disk, v'.inodes, m) == Content(v.disk, v.inodes, m)
  }

  /** iupdate at the end of an operation on file n. */
  lemma Finished(sb: Superblock, v0: View, v: View, n: nat)
    requires FsOk(sb, v0) && Sound(sb, v) && n < |v.inodes| && OthersSame(v0, v, n) && NoHoles(v.disk, v.inodes, n)
    requires n < |v0.inodes| && SameAttributes(v0.inodes[n], v.inodes[n])
    requires MetaKept(sb, v0.disk, v.disk) &&
             forall m {:trigger v.inodes[m]} :: 0 <= m < |v.inodes| && m != n ==> v.inodes[m] == v0.inodes[m]
    ensures var v' := View(StoreInode(sb, v.disk, n, v.inodes[n]), v.inodes, v.owner);
            FsOk(sb, v') && OthersUntouched(v0, v', n) && Content(v'.disk, v'.inodes, n) == Content(v.disk, v.inodes, n)
  {
    assert Open(true);
    var v' := View(StoreInode(sb, v.disk, n, v.inodes[n]), v.inodes, v.owner);
    StoreKeeps(sb, v, n);
    forall m: nat | m < |v.inodes|
      ensures NoHoles(v'.disk, v'.inodes, m) && Content(v'.disk, v'.inodes, m) == Content(v.disk, v.inodes, m)
    {
      assert NoHoles(v.disk, v.inodes, m);
      assert NoHoles(v'.disk, v'.inodes, m);
    }
    forall m: nat | m < |v.inodes|
      ensures Stored(sb, v', m)
    {
      if m != n {
        assert Stored(sb, v0, m) && v.inodes[m] == v0.inodes[m];
        StoredStill(sb, v0, v, m);
      }
      StoredNow(sb, v, n, m);
    }
    forall m: nat | m < |v.inodes| && m != n
      ensures v'.inodes[m] == v0.inodes[m] && Content(v'.disk, v'.inodes, m) == Content(v0.disk, v0.inodes, m)
    {
      assert NoHoles(v.disk, v.inodes, m) && v.inodes[m] == v0.inodes[m];
    }
  }

  lemma WritingNothing(sb: Superblock, v: View, n: nat, off: nat, src: seq<byte>)
    requires FsOk(sb, v) && n < |v.inodes| && off <= v.inodes[n].size
    ensures Writing(sb, v, v, n, off, src, 0)
  {
    assert Open(true);
    forall k: nat | k < v.inodes[n].size
      ensures Placed(v, v, n, off, src, 0, k)
    {
      assert NoHoles(v.disk, v.inodes, n) && k / BSIZE * BSIZE <= k;
      assert HasBlock(v, n, k);
    }
  }

  /** The end of writei: the file has grown to end, or was longer, and its inode is written. */
  function Ended(sb: Superblock, v: View, n: nat, end: nat): View
    requires Layout(sb, v.disk) && n < |v.inodes| == sb.ninodes && end <= MAXFILE * BSIZE
  {
    var inodes' := if end > v.inodes[n].size then SetSize(v.inodes, n, end) else v.inodes;
    View(StoreInode(sb, v.disk, n, inodes'[n]), inodes', v.owner)
  }

  /** The last steps of writei. */
  lemma WriteFinished(sb: Superblock, v0: View, v: View, n: nat, off: nat, src: seq<byte>, tot: nat)
    requires FsOk(sb, v0) && tot <= |src| && n < |v0.inodes| && Writing(sb, v0, v, n, off, src, tot)
    requires off <= v0.inodes[n].size && off + tot <= MAXFILE * BSIZE
    ensures v.inodes[n].size == v0.inodes[n].size
    ensures var v' := Ended(sb, v, n, off + tot);
            && FsOk(sb, v') && OthersUntouched(v0, v', n)
            && Content(v'.disk, v'.inodes, n) == Splice(Content(v0.disk, v0.inodes, n), off, src[..tot])
            && forall b: nat {:trigger UsedIn(sb, v'.disk, b)} :: b < sb.size ==>
                 (UsedIn(sb, v'.disk, b) <==> UsedIn(sb, v.disk, b))
  {
    assert Open(true) && Shown(true);
    assert NoHoles(v0.disk, v0.inodes, n);
    WritingDone(sb, v0, v, n, off, src, tot);
    var inodes' := if off + tot > v.inodes[n].size then SetSize(v.inodes, n, off + tot) else v.inodes;
    assert inodes' == SetSize(v.inodes, n, Max(v0.inodes[n].size, off + tot));
    Finished(sb, v0, View(v.disk, inodes', v.owner), n);
    forall b: nat | b < sb.size
      ensures UsedIn(sb, StoreInode(sb, v.disk, n, inodes'[n]), b) <==> UsedIn(sb, v.disk, b)
    {
      BitmapBlock(sb, v.disk, b);
    }
  }

  // ---------- readi ----------

  lemma ReadChunk(v: View, n: nat, p: nat, len: nat)
    requires n < |v.inodes| && p + len <= v.inodes[n].size && p % BSIZE + len <= BSIZE
    requires Ref(v.disk, v.inodes, SlotOf(n, p / BSIZE)) < |v.disk|
    ensures v.disk[Ref(v.disk, v.inodes,
                       SlotOf(n, p / BSIZE))][p % BSIZE..p % BSIZE + len] == Content(v.disk, v.inodes, n)[p..p + len]
  {
    var b := v.disk[Ref(v.disk, v.inodes, SlotOf(n, p / BSIZE))];
    var got, want := b[p % BSIZE..p % BSIZE + len], Content(v.disk, v.inodes, n)[p..p + len];
    forall i | 0 <= i < len
      ensures got[i] == want[i]
    {
      SameBlock(p, p + i, len);
    }
  }
}
