/** The operations of the inode layer, on the logical disk and the in-memory inodes. */
module FileOps {
  import opened Bitmap
  import opened BlockMap
  import opened Blocks
  import opened FileContent
  import opened Files
  import opened FileSystem
  import opened Truncate

  predicate IsEmpty(ip: Inode) {
    ip.size == 0 && forall k :: 0 <= k <= NDIRECT ==> ip.addrs[k] == 0
  }

  /** The test for wrap-around in 32 bits. */
  lemma WrapsAround(off: nat, len: nat)
    requires off < 0x1_0000_0000 && len < 0x1_0000_0000
    ensures (off + len) % 0x1_0000_0000 < off <==> off + len >= 0x1_0000_0000
  {
  }

  lemma Joined<T>(s: seq<T>, a: nat, b: nat, c: nat)
    requires a <= b <= c <= |s|
    ensures s[a..b] + s[b..c] == s[a..c]
  {
  }

  lemma InBlock(b: nat, bi: nat)
    requires b % BPB == 0 && bi < BPB
    ensures (b + bi) / BPB == b / BPB && (b + bi) % BPB == bi
  {
  }

  class Fs {
    const sb: Superblock
    var disk: seq<Block>
    var inodes: seq<Inode>
    ghost var owner: map<nat, Slot>

    ghost function Now(): View
      reads this
    {
      View(disk, inodes, owner)
    }

    /** A file system of empty files: the bitmap marks the metadata blocks only. */
    constructor (sb: Superblock, disk: seq<Block>, inodes: seq<Inode>)
      requires Layout(sb, disk) && |inodes| == sb.ninodes
      requires forall b: nat {:trigger UsedIn(sb, disk, b)} :: b < sb.size ==> (UsedIn(sb, disk, b) <==> b < sb.data)
      requires forall n: nat {:trigger inodes[n]} :: n < |inodes| ==> IsEmpty(inodes[n])
      requires forall n: nat {:trigger Stored(sb, View(disk, inodes, map[]), n)} :: n < |inodes| ==>
                 Stored(sb, View(disk, inodes, map[]), n)
      ensures FsOk(this.sb, Now()) && Now() == View(disk, inodes, map[]) && this.sb == sb
      ensures forall n {:trigger Content(disk, inodes, n)} :: 0 <= n < |inodes| ==> Content(disk, inodes, n) == []
    {
      this.sb, this.disk, this.inodes, owner := sb, disk, inodes, map[];
      forall s
        ensures Ref(disk, inodes, s) == 0
      {
      }
    }

    /** balloc takes the first free block. */
    method Balloc() returns (r: nat)
      requires Layout(sb, disk) && forall b: nat {:trigger UsedIn(sb, disk, b)} :: b < sb.data ==> UsedIn(sb, disk, b)
      modifies `disk
      ensures r == 0 ==> disk == old(disk) && forall b: nat {:trigger UsedIn(sb, disk, b)} ::
                b < sb.size ==> UsedIn(sb, disk, b)
      ensures r != 0 ==> && sb.data <= r < sb.size && !UsedIn(sb, old(disk), r) && disk == Allocated(sb, old(disk), r)
                         && forall b: nat {:trigger UsedIn(sb, old(disk), b)} :: b < r ==> UsedIn(sb, old(disk), b)
    {
      var b := 0;
      while b < sb.size
        invariant b % BPB == 0 && disk == old(disk)
        invariant forall c: nat {:trigger UsedIn(sb, disk, c)} :: c < b && c < sb.size ==> UsedIn(sb, disk, c)
      {
        var bi := FirstClear(b);
        if bi < BPB && b + bi < sb.size {
          InBlock(b, bi);
          var c := sb.bmapstart + b / BPB;
          disk := disk[c := PutBitIn(disk[c], bi, true)];
          disk := disk[b + bi := ZeroBlock()];
          return b + bi;
        }
        b := b + BPB;
      }
      r := 0;
    }

    /** The inner loop: the first clear bit of the bitmap block for block b on. */
    method FirstClear(b: nat) returns (bi: nat)
      requires Layout(sb, disk) && b % BPB == 0 && b < sb.size
      ensures bi <= BPB && (bi == BPB || b + bi >= sb.size || !UsedIn(sb, disk, b + bi))
      ensures forall c: nat {:trigger UsedIn(sb, disk, c)} :: b <= c < b + bi && c < sb.size ==> UsedIn(sb, disk, c)
    {
      BitmapBlock(sb, disk, b);
      var bp := disk[sb.bmapstart + b / BPB];
      bi := 0;
      while bi < BPB && b + bi < sb.size
        invariant bi <= BPB
        invariant forall c: nat {:trigger UsedIn(sb, disk, c)} :: b <= c < b + bi && c < sb.size ==> UsedIn(sb, disk, c)
      {
        InBlock(b, bi);
        assert UsedIn(sb, disk, b + bi) <==> BitIn(bp, bi);
        if !BitIn(bp, bi) {
          return;
        }
        bi := bi + 1;
      }
    }

    /** The result false is the panic "freeing free block". */
    method Bfree(b: nat) returns (ok: bool)
      requires Layout(sb, disk) && b < sb.size
      modifies `disk
      ensures ok <==> UsedIn(sb, old(disk), b)
      ensures disk == if ok then Freed(sb, old(disk), b) else old(disk)
    {
      BitmapBlock(sb, disk, b);
      var bp := disk[sb.bmapstart + b / BPB];
      if !BitIn(bp, b % BPB) {
        return false;
      }
      disk := disk[sb.bmapstart + b / BPB := PutBitIn(bp, b % BPB, false)];
      ok := true;
    }

    method Bmap(n: nat, bn: nat) returns (addr: nat, panicked: bool)
      requires Sound(sb, Now()) && n < |inodes|
      modifies this
      ensures panicked <==> bn >= MAXFILE
      ensures panicked ==> Now() == old(Now())
      ensures !panicked ==> BmapDone(sb, old(Now()), Now(), n, bn, addr)
    {
      addr, panicked := 0, false;
      if bn < NDIRECT {
        addr := BmapDirect(n, bn);
      } else if bn - NDIRECT < NINDIRECT {
        addr := BmapFar(n, bn - NDIRECT);
      } else {
        panicked := true;
      }
    }

    method BmapDirect(n: nat, bn: nat) returns (addr: nat)
      requires Sound(sb, Now()) && n < |inodes| && bn < NDIRECT
      modifies this
      ensures BmapDone(sb, old(Now()), Now(), n, bn, addr)
    {
      addr := inodes[n].addrs[bn];
      NoneTakenIfFull(bn, n);
      if addr == 0 {
        addr := Balloc();
        if addr != 0 {
          TakeDirect(sb, old(Now()), n, bn, addr);
          inodes, owner := SetAddr(inodes, n, bn, addr), owner[addr := Direct(n, bn)];
          TookIsBmap(sb, old(Now()), Now(), n, bn, addr);
        }
      }
    }

    /** bmap beyond the direct blocks, loading or allocating the indirect block. */
    method BmapFar(n: nat, k: nat) returns (addr: nat)
      requires Sound(sb, Now()) && n < |inodes| && k < NINDIRECT
      modifies this
      ensures BmapDone(sb, old(Now()), Now(), n, NDIRECT + k, addr)
    {
      NoneTakenIfFull(NDIRECT + k, n);
      if inodes[n].addrs[NDIRECT] == 0 {
        addr := Balloc();
        if addr == 0 {
          return;
        }
        TakeSingle(sb, old(Now()), n, addr);
        inodes, owner := SetAddr(inodes, n, NDIRECT, addr), owner[addr := Single(n)];
        ghost var mid, a := Now(), addr;
        TookSound(sb, old(Now()), Single(n), a, mid);
        addr := BmapIndirect(n, k);
        SingleThenBmap(sb, old(Now()), a, mid, Now(), n, NDIRECT + k, addr);
      } else {
        addr := BmapIndirect(n, k);
      }
    }

    lemma NoneTakenIfFull(bn: nat, n: nat)
      requires Sound(sb, Now()) && n < |inodes|
      ensures var r := Ref(disk, inodes, SlotOf(n, bn));
              r != 0 || (forall b: nat {:trigger UsedIn(sb, disk, b)} :: b < sb.size ==> UsedIn(sb, disk, b)) ==>
                BmapDone(sb, Now(), Now(), n, bn, r)
    {
      if Ref(disk, inodes, SlotOf(n, bn)) != 0 || forall b: nat {:trigger UsedIn(sb, disk, b)} :: b < sb.size ==>
        UsedIn(sb, disk, b) {
        NoneTaken(sb, Now(), n, bn);
      }
    }

    /** bmap with the indirect block in place. */
    method BmapIndirect(n: nat, k: nat) returns (addr: nat)
      requires Sound(sb, Now()) && n < |inodes| && k < NINDIRECT && inodes[n].addrs[NDIRECT] != 0
      modifies this
      ensures BmapDone(sb, old(Now()), Now(), n, NDIRECT + k, addr)
    {
      var a := inodes[n].addrs[NDIRECT];
      assert Ref(disk, inodes, Single(n)) == a;
      addr := Word(disk[a], k);
      assert SlotOf(n, NDIRECT + k) == Indirect(n, k);
      NoneTakenIfFull(NDIRECT + k, n);
      if addr == 0 {
        addr := Balloc();
        if addr != 0 {
          IndirectIsBmap(sb, old(Now()), n, k, addr);
          disk, owner := SetIndirect(disk, a, k, addr), owner[addr := Indirect(n, k)];
        }
      }
    }

    method Iupdate(n: nat)
      requires Layout(sb, disk) && n < |inodes| == sb.ninodes
      modifies `disk
      ensures disk == StoreInode(sb, old(disk), n, inodes[n])
    {
      var c := sb.inodestart + n / IPB;
      disk := disk[c := PutDinode(disk[c], n % IPB, inodes[n])];
    }

    /** readi returns the slice of the file, cut at its end, and changes nothing: bmap never
        has to allocate. */
    method Readi(n: nat, off: u32, len: u32) returns (dst: seq<byte>, panicked: bool)
      requires FsOk(sb, Now()) && n < |inodes|
      modifies this
      ensures !panicked && Now() == old(Now())
      ensures off > inodes[n].size || off + len >= 0x1_0000_0000 ==> dst == []
      ensures off <= inodes[n].size && off + len < 0x1_0000_0000 ==>
                dst == Content(disk, inodes, n)[off..Min(off + len, inodes[n].size)]
    {
      dst, panicked := [], false;
      WrapsAround(off, len);
      if off > inodes[n].size || (off + len) % 0x1_0000_0000 < off {
        return;
      }
      dst, panicked := ReadBlocks(n, off, Min(len, inodes[n].size - off));
    }

    /** readi's loop. */
    method ReadBlocks(n: nat, off: nat, size: nat) returns (dst: seq<byte>, panicked: bool)
      requires FsOk(sb, Now()) && n < |inodes| && off + size <= inodes[n].size
      modifies this
      ensures !panicked && Now() == old(Now()) && dst == Content(disk, inodes, n)[off..off + size]
    {
      dst, panicked := [], false;
      ghost var content := Content(disk, inodes, n);
      while |dst| < size
        invariant |dst| <= size && !panicked && Now() == old(Now())
        invariant dst == content[off..off + |dst|]
      {
        var chunk;
        chunk, panicked := ReadBlock(n, off + |dst|, size - |dst|);
        if panicked || chunk == [] {
          break;
        }
        Joined(content, off, off + |dst|, off + |dst| + |chunk|);
        dst := dst + chunk;
      }
    }

    /** One round of readi, at position p with left bytes to go. */
    method ReadBlock(n: nat, p: nat, left: nat) returns (chunk: seq<byte>, panicked: bool)
      requires FsOk(sb, Now()) && n < |inodes| && left > 0 && p + left <= inodes[n].size
      modifies this
      ensures !panicked && Now() == old(Now())
      ensures 0 < |chunk| <= left && chunk == Content(disk, inodes, n)[p..p + |chunk|]
    {
      FsSound(sb, Now(), n);
      assert p / BSIZE * BSIZE <= p && Ref(disk, inodes, SlotOf(n, p / BSIZE)) != 0;
      var addr;
      addr, panicked := Bmap(n, p / BSIZE);
      BmapFinds(sb, old(Now()), Now(), n, p / BSIZE, addr);
      if addr == 0 {
        return [], panicked;
      }
      var m := Min(left, BSIZE - p % BSIZE);
      ReadChunk(Now(), n, p, m);
      chunk := disk[addr][p % BSIZE..p % BSIZE + m];
    }

    /** writei's loop. */
    method WriteBlocks(n: nat, off: nat, src: seq<byte>) returns (tot: nat, panicked: bool)
      requires FsOk(sb, Now()) && n < |inodes| && off <= inodes[n].size && off + |src| <= MAXFILE * BSIZE
      modifies this
      ensures !panicked && tot <= |src| && Writing(sb, old(Now()), Now(), n, off, src, tot)
      ensures tot < |src| ==> forall b: nat {:trigger UsedIn(sb, disk, b)} :: b < sb.size ==> UsedIn(sb, disk, b)
    {
      tot, panicked := 0, false;
      WritingNothing(sb, Now(), n, off, src);
      while tot < |src|
        invariant tot <= |src| && !panicked && Writing(sb, old(Now()), Now(), n, off, src, tot)
      {
        var m;
        m, panicked := WriteBlock(n, off, src, tot, old(Now()));
        if m == 0 {
          return;
        }
        tot := tot + m;
      }
    }

    /** One round of the loop, which began in v0. */
    method WriteBlock(n: nat, off: nat, src: seq<byte>, tot: nat, ghost v0: View) returns (m: nat, panicked: bool)
      requires tot < |src| && off + |src| <= MAXFILE * BSIZE
      requires n < |v0.inodes| && Writing(sb, v0, Now(), n, off, src, tot)
      modifies this
      ensures !panicked && tot + m <= |src| && Writing(sb, v0, Now(), n, off, src, tot + m)
      ensures m == 0 ==> forall b: nat {:trigger UsedIn(sb, disk, b)} :: b < sb.size ==> UsedIn(sb, disk, b)
    {
      var addr;
      addr, panicked := Bmap(n, (off + tot) / BSIZE);
      BmapKeepsWriting(sb, v0, old(Now()), n, off, src, tot, Now(), (off + tot) / BSIZE, addr);
      if addr == 0 {
        return 0, panicked;
      }
      m := Min(|src| - tot, BSIZE - (off + tot) % BSIZE);
      ChunkWritten(sb, v0, Now(), n, off, src, tot, m);
      disk := disk[addr := PutBytes(disk[addr], (off + tot) % BSIZE, src[tot..tot + m])];
    }

    /** writei splices the first tot bytes of src into the file. It writes less than all of
        src only if the disk is full, and touches no other file. */
    method Writei(n: nat, off: u32, src: seq<byte>) returns (tot: int, panicked: bool)
      requires FsOk(sb, Now()) && n < |inodes| && |src| < 0x1_0000_0000
      modifies this
      ensures !panicked && FsOk(sb, Now())
      ensures tot == -1 <==> off > old(inodes)[n].size || off + |src| > MAXFILE * BSIZE
      ensures tot == -1 ==> Now() == old(Now())
      ensures tot != -1 ==> && 0 <= tot <= |src| && OthersUntouched(old(Now()), Now(), n)
                            && Content(disk, inodes, n) == Splice(old(Content(disk, inodes, n)), off, src[..tot])
      ensures 0 <= tot < |src| ==> forall b: nat {:trigger UsedIn(sb, disk, b)} :: b < sb.size ==> UsedIn(sb, disk, b)
    {
      tot, panicked := -1, false;
      WrapsAround(off, |src|);
      if off > inodes[n].size || (off + |src|) % 0x1_0000_0000 < off {
        return;
      }
      if off + |src| > MAXFILE * BSIZE {
        return;
      }
      tot, panicked := WriteWithin(n, off, src);
    }

    /** writei, past its tests. */
    method WriteWithin(n: nat, off: nat, src: seq<byte>) returns (tot: nat, panicked: bool)
      requires FsOk(sb, Now()) && n < |inodes| && off <= inodes[n].size && off + |src| <= MAXFILE * BSIZE
      modifies this
      ensures !panicked && FsOk(sb, Now()) && tot <= |src| && OthersUntouched(old(Now()), Now(), n)
      ensures Content(disk, inodes, n) == Splice(old(Content(disk, inodes, n)), off, src[..tot])
      ensures tot < |src| ==> forall b: nat {:trigger UsedIn(sb, disk, b)} :: b < sb.size ==> UsedIn(sb, disk, b)
    {
      tot, panicked := WriteBlocks(n, off, src);
      WriteFinished(sb, old(Now()), Now(), n, off, src, tot);
      EndWrite(n, off + tot);
    }

    /** writei's end: the file has grown to end, or was longer. */
    method EndWrite(n: nat, end: nat)
      requires Layout(sb, disk) && n < |inodes| == sb.ninodes && end <= MAXFILE * BSIZE
      modifies `disk, `inodes
      ensures Now() == Ended(sb, old(Now()), n, end)
    {
      if end > inodes[n].size {
        inodes := SetSize(inodes, n, end);
      }
      Iupdate(n);
    }

    /** itrunc frees exactly the blocks of file n and leaves it empty. The panic "freeing free
        block" is not reached. */
    method Itrunc(n: nat) returns (panicked: bool)
      requires FsOk(sb, Now()) && n < |inodes|
      modifies this
      ensures !panicked && FsOk(sb, Now()) && Content(disk, inodes, n) == [] && OthersUntouched(old(Now()), Now(), n)
      ensures forall b {:trigger b in owner} :: b in owner <==> b in old(owner) && old(owner)[b].n != n
    {
      FsSound(sb, Now(), n);
      NothingCut(sb, Now(), n);
      panicked := FreeDirect(n);
      if !panicked && inodes[n].addrs[NDIRECT] != 0 {
        panicked := FreeIndirect(n, old(Now()));
      }
      AllCut(sb, old(Now()), Now(), n);
      CutFinished(sb, old(Now()), Now(), n);
      inodes := SetSize(inodes, n, 0);
      Iupdate(n);
    }

    method FreeDirect(n: nat) returns (panicked: bool)
      requires Sound(sb, Now()) && n < |inodes|
      modifies this
      ensures !panicked && Cut(sb, old(Now()), Now(), n, {})
      ensures forall k {:trigger inodes[n].addrs[k]} :: 0 <= k < NDIRECT ==> inodes[n].addrs[k] == 0
    {
      panicked := false;
      NothingCut(sb, Now(), n);
      for i := 0 to NDIRECT
        invariant !panicked && Cut(sb, old(Now()), Now(), n, {})
        invariant forall k {:trigger inodes[n].addrs[k]} :: 0 <= k < i ==> inodes[n].addrs[k] == 0
      {
        var b := inodes[n].addrs[i];
        if b != 0 {
          CutDirect(sb, old(Now()), Now(), n, i);
          StillUsed(sb, old(Now()), Now(), n, {}, Direct(n, i));
          var ok := Bfree(b);
          if !ok {
            return true;
          }
          inodes, owner := SetAddr(inodes, n, i, 0), owner - {b};
        }
      }
    }

    method FreeIndirect(n: nat, ghost v0: View) returns (panicked: bool)
      requires Sound(sb, v0) && Cut(sb, v0, Now(), n, {}) && inodes[n].addrs[NDIRECT] != 0
      requires forall k {:trigger inodes[n].addrs[k]} :: 0 <= k < NDIRECT ==> inodes[n].addrs[k] == 0
      modifies this
      ensures !panicked && Cut(sb, v0, Now(), n, {})
      ensures forall k {:trigger inodes[n].addrs[k]} :: 0 <= k <= NDIRECT ==> inodes[n].addrs[k] == 0
    {
      panicked := FreeSlots(n, v0);
      if panicked {
        return;
      }
      var b := inodes[n].addrs[NDIRECT];
      CutSingle(sb, v0, Now(), n);
      StillUsed(sb, v0, Now(), n, Front(n, NINDIRECT), Single(n));
      var ok := Bfree(b);
      if !ok {
        return true;
      }
      inodes, owner := SetAddr(inodes, n, NDIRECT, 0), owner - {b};
    }

    method FreeSlots(n: nat, ghost v0: View) returns (panicked: bool)
      requires Sound(sb, v0) && Cut(sb, v0, Now(), n, {}) && inodes[n].addrs[NDIRECT] != 0
      modifies `disk, `owner
      ensures !panicked && Cut(sb, v0, Now(), n, Front(n, NINDIRECT))
    {
      panicked := false;
      for j := 0 to NINDIRECT
        invariant !panicked && Cut(sb, v0, Now(), n, Front(n, j)) && inodes[n].addrs[NDIRECT] != 0
      {
        panicked := FreeSlot(n, j, v0);
        if panicked {
          return;
        }
      }
    }

    method FreeSlot(n: nat, j: nat, ghost v0: View) returns (panicked: bool)
      requires Sound(sb, v0) && Cut(sb, v0, Now(), n, Front(n, j)) && inodes[n].addrs[NDIRECT] != 0 && j < NINDIRECT
      modifies `disk, `owner
      ensures !panicked && Cut(sb, v0, Now(), n, Front(n, j + 1))
    {
      panicked := false;
      StillUsed(sb, v0, Now(), n, Front(n, j), Single(n));
      CutIndirect(sb, v0, Now(), n, j);
      var b := Word(disk[inodes[n].addrs[NDIRECT]], j);
      assert b == Ref(disk, inodes, Indirect(n, j));
      if b != 0 {
        StillUsed(sb, v0, Now(), n, Front(n, j), Indirect(n, j));
        var ok := Bfree(b);
        if !ok {
          return true;
        }
        owner := owner - {b};
      }
    }
  }
}
