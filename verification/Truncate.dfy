/** itrunc: giving up the blocks of a file, one by one. */
module Truncate {
  import opened BlockMap
  import opened Blocks
  import opened FileContent
  import opened Files
  import opened FileSystem
  import opened Seals

  /** v is v0 with some blocks of file n given up. The slots in gone still hold the numbers of
      blocks that are free already. */
  ghost predicate Cut(sb: Superblock, v0: View, v: View, n: nat, gone: set<Slot>) {
    && Layout(sb, v.disk) && |v.inodes| == sb.ninodes && Owned(sb, v.disk, v.inodes, v.owner, gone)
    && OwnedKept(v0.disk, v.disk, v0.owner) && MetaKept(sb, v0.disk, v.disk) && SameBut(v0.inodes, v.inodes, n)
    && (forall r: Slot {:trigger Ref(v.disk, v.inodes, r)} :: r.n != n ==>
          Ref(v.disk, v.inodes, r) == Ref(v0.disk, v0.inodes, r))
    && (forall b {:trigger v.owner[b]} :: b in v.owner ==> b in v0.owner && v.owner[b] == v0.owner[b])
    && (forall b {:trigger b in v.owner} :: b in v0.owner && v0.owner[b].n != n ==> b in v.owner)
  }

  lemma NothingCut(sb: Superblock, v: View, n: nat)
    requires Sound(sb, v) && n < |v.inodes|
    ensures Cut(sb, v, v, n, {})
  {
    forall c | c in v.owner
      ensures Kept(v.disk, v.disk, c)
    {
      assert v.owner[c] == v.owner[c];
    }
  }

  /** The bitmap is all that bfree changes. */
  lemma FreedKeeps(sb: Superblock, v0: View, v: View, n: nat, gone: set<Slot>, b: nat)
    requires Sound(sb, v0) && Cut(sb, v0, v, n, gone) && b < sb.size
    ensures var d := Freed(sb, v.disk, b);
            OwnedKept(v0.disk, d, v0.owner) && OwnedKept(v.disk, d, v.owner) && MetaKept(sb, v0.disk, d)
  {
    FreedFrame(sb, v.disk, b);
    var d := Freed(sb, v.disk, b);
    forall c | c in v0.owner
      ensures Kept(v0.disk, d, c)
    {
      assert v0.owner[c] == v0.owner[c];
      assert Kept(v0.disk, v.disk, c) && Kept(v.disk, d, c);
    }
    forall c | c in v.owner
      ensures Kept(v.disk, d, c)
    {
      assert v.owner[c] == v.owner[c];
    }
    forall c: nat | c < sb.bmapstart
      ensures Kept(v0.disk, d, c)
    {
      assert Kept(v0.disk, v.disk, c) && Kept(v.disk, d, c);
    }
  }

  /** bfree will not panic on a block that a slot still holds. */
  lemma StillUsed(sb: Superblock, v0: View, v: View, n: nat, gone: set<Slot>, s: Slot)
    requires Cut(sb, v0, v, n, gone) && s !in gone && Ref(v.disk, v.inodes, s) != 0
    ensures var b := Ref(v.disk, v.inodes, s);
            sb.data <= b < sb.size && b in v.owner && v.owner[b] == s && UsedIn(sb, v.disk, b)
  {
    var b := Ref(v.disk, v.inodes, s);
    assert v.owner[b] == s;
    assert UsedIn(sb, v.disk, b) <==> b < sb.data || b in v.owner;
  }

  lemma CutDirect(sb: Superblock, v0: View, v: View, n: nat, k: nat)
    requires Sound(sb, v0) && Cut(sb, v0, v, n, {}) && k < NDIRECT && v.inodes[n].addrs[k] != 0
    ensures var b := v.inodes[n].addrs[k];
            b < sb.size && Cut(sb, v0, View(Freed(sb, v.disk, b), SetAddr(v.inodes, n, k, 0), v.owner - {b}), n, {})
  {
    var s, b := Direct(n, k), v.inodes[n].addrs[k];
    assert Ref(v.disk, v.inodes, s) == b;
    StillUsed(sb, v0, v, n, {}, s);
    var d, inodes' := Freed(sb, v.disk, b), SetAddr(v.inodes, n, k, 0);
    FreedKeeps(sb, v0, v, n, {}, b);
    FreedFrame(sb, v.disk, b);
    forall r
      ensures Ref(d, inodes', r) == if r == s then 0 else Ref(v.disk, v.inodes, r)
    {
      RefKept(sb, v.disk, v.inodes, v.owner, {}, d, r);
      SetDirectRefs(d, v.inodes, n, k, 0, r);
    }
    GivenUp(sb, v.disk, v.inodes, v.owner, {}, s, b, d, inodes', {});
    SameButTransitive(v0.inodes, v.inodes, inodes', n);
    LessOwned(v0.owner, v.owner, n, b);
  }

  lemma LessOwned(owner0: map<nat, Slot>, owner: map<nat, Slot>, n: nat, b: nat)
    requires b in owner && owner[b].n == n
    requires forall c {:trigger owner[c]} :: c in owner ==> c in owner0 && owner[c] == owner0[c]
    requires forall c {:trigger c in owner} :: c in owner0 && owner0[c].n != n ==> c in owner
    ensures var owner' := owner - {b};
            && (forall c {:trigger owner'[c]} :: c in owner' ==> c in owner0 && owner'[c] == owner0[c])
            && (forall c {:trigger c in owner'} :: c in owner0 && owner0[c].n != n ==> c in owner')
  {
    assert owner[b] == owner0[b];
    var owner' := owner - {b};
    forall c | c in owner'
      ensures c in owner0 && owner'[c] == owner0[c]
    {
      assert owner[c] == owner0[c];
    }
  }

  /** The first k slots of the indirect block of file n. */
  function Front(n: nat, k: nat): (s: set<Slot>)
    ensures forall r: Slot :: r in s <==> r.Indirect? && r.n == n && r.k < k
  {
    if k == 0 then {} else Front(n, k - 1) + {Indirect(n, k - 1)}
  }

  lemma CutIndirect(sb: Superblock, v0: View, v: View, n: nat, k: nat)
    requires Sound(sb, v0) && Cut(sb, v0, v, n, Front(n, k)) && k < NINDIRECT
    ensures var b := Ref(v.disk, v.inodes, Indirect(n, k));
            if b == 0 then Cut(sb, v0, v, n, Front(n, k + 1))
            else b < sb.size && Cut(sb, v0, View(Freed(sb, v.disk, b), v.inodes, v.owner - {b}), n, Front(n, k + 1))
  {
    var s, gone, gone' := Indirect(n, k), Front(n, k), Front(n, k + 1);
    var b := Ref(v.disk, v.inodes, s);
    if b == 0 {
      forall c | c in v.owner
        ensures v.owner[c] !in gone'
      {
        assert Ref(v.disk, v.inodes, v.owner[c]) == c;
      }
    } else {
      StillUsed(sb, v0, v, n, gone, s);
      var d := Freed(sb, v.disk, b);
      FreedKeeps(sb, v0, v, n, gone, b);
      FreedFrame(sb, v.disk, b);
      forall r
        ensures Ref(d, v.inodes, r) == Ref(v.disk, v.inodes, r)
      {
        RefKept(sb, v.disk, v.inodes, v.owner, gone, d, r);
      }
      GivenUp(sb, v.disk, v.inodes, v.owner, gone, s, b, d, v.inodes, gone');
      LessOwned(v0.owner, v.owner, n, b);
    }
  }

  /** The block of slot s is given up, and the slots in gone are cleared with it. */
  lemma AllGivenUp(sb: Superblock, disk: seq<Block>, inodes: seq<Inode>, owner: map<nat, Slot>, gone: set<Slot>,
                   s: Slot, b: nat, disk': seq<Block>, inodes': seq<Inode>)
    requires Owned(sb, disk, inodes, owner, gone) && b in owner && owner[b] == s
    requires forall r {:trigger Ref(disk', inodes', r)} :: Ref(disk', inodes', r) == if r == s || r in gone then 0
                                                                                     else Ref(disk, inodes, r)
    requires forall c: nat {:trigger UsedIn(sb, disk', c)} :: c < sb.size ==>
               (UsedIn(sb, disk', c) <==> c != b && UsedIn(sb, disk, c))
    ensures Owned(sb, disk', inodes', owner - {b}, {})
  {
    var owner' := owner - {b};
    forall r | Ref(disk', inodes', r) != 0
      ensures Ref(disk', inodes', r) in owner' && owner'[Ref(disk', inodes', r)] == r
    {
      assert Ref(disk, inodes, r) in owner && owner[Ref(disk, inodes, r)] == r;
    }
    forall c | c in owner'
      ensures Ref(disk', inodes', owner'[c]) == c
    {
      assert Ref(disk, inodes, owner[c]) == c && Ref(disk, inodes, s) == b;
    }
    forall c: nat | c < sb.size
      ensures UsedIn(sb, disk', c) <==> c < sb.data || c in owner'
    {
      assert UsedIn(sb, disk', c) <==> c != b && UsedIn(sb, disk, c);
    }
  }

  lemma ClearSingleRefs(disk: seq<Block>, inodes: seq<Inode>, n: nat, r: Slot)
    requires n < |inodes|
    ensures Ref(disk, SetAddr(inodes, n, NDIRECT, 0), r) == if r == Single(n) || r in Front(n, NINDIRECT) then 0
                                                            else Ref(disk, inodes, r)
  {
  }

  /** The references and owners after the indirect block itself has gone. */
  lemma SingleCut(sb: Superblock, v: View, n: nat, d: seq<Block>, b: nat)
    requires n < |v.inodes| && Owned(sb, v.disk, v.inodes, v.owner, Front(n, NINDIRECT)) && b in v.owner &&
             v.owner[b] == Single(n)
    requires OwnedKept(v.disk, d, v.owner)
    requires forall c: nat {:trigger UsedIn(sb, d, c)} :: c < sb.size ==>
               (UsedIn(sb, d, c) <==> c != b && UsedIn(sb, v.disk, c))
    ensures Owned(sb, d, SetAddr(v.inodes, n, NDIRECT, 0), v.owner - {b}, {})
    ensures forall r: Slot {:trigger Ref(d, SetAddr(v.inodes, n, NDIRECT, 0), r)} :: r.n != n ==>
              Ref(d, SetAddr(v.inodes, n, NDIRECT, 0), r) == Ref(v.disk, v.inodes, r)
  {
    var inodes' := SetAddr(v.inodes, n, NDIRECT, 0);
    forall r
      ensures Ref(d, inodes', r) == if r == Single(n) || r in Front(n, NINDIRECT) then 0 else Ref(v.disk, v.inodes, r)
    {
      RefKept(sb, v.disk, v.inodes, v.owner, Front(n, NINDIRECT), d, r);
      ClearSingleRefs(d, v.inodes, n, r);
    }
    AllGivenUp(sb, v.disk, v.inodes, v.owner, Front(n, NINDIRECT), Single(n), b, d, inodes');
  }

  /** Last the indirect block itself: with it all its slots go. */
  lemma CutSingle(sb: Superblock, v0: View, v: View, n: nat)
    requires Sound(sb, v0) && Cut(sb, v0, v, n, Front(n, NINDIRECT)) && v.inodes[n].addrs[NDIRECT] != 0
    ensures var b := v.inodes[n].addrs[NDIRECT];
            b < sb.size && Cut(sb, v0, View(Freed(sb, v.disk, b), SetAddr(v.inodes, n, NDIRECT, 0), v.owner - {b}), n,
                               {})
  {
    var b := v.inodes[n].addrs[NDIRECT];
    assert Ref(v.disk, v.inodes, Single(n)) == b;
    StillUsed(sb, v0, v, n, Front(n, NINDIRECT), Single(n));
    var d, inodes' := Freed(sb, v.disk, b), SetAddr(v.inodes, n, NDIRECT, 0);
    FreedKeeps(sb, v0, v, n, Front(n, NINDIRECT), b);
    FreedFrame(sb, v.disk, b);
    SingleCut(sb, v, n, d, b);
    forall r: Slot | r.n != n
      ensures Ref(d, inodes', r) == Ref(v0.disk, v0.inodes, r)
    {
      assert Ref(d, inodes', r) == Ref(v.disk, v.inodes, r);
    }
    SameButTransitive(v0.inodes, v.inodes, inodes', n);
    LessOwned(v0.owner, v.owner, n, b);
  }

  /** With all slots empty, exactly the blocks of file n are gone, and the others have kept
      their contents. */
  lemma AllCut(sb: Superblock, v0: View, v: View, n: nat)
    requires FsOk(sb, v0) && n < |v0.inodes| && Cut(sb, v0, v, n, {})
    requires forall k {:trigger v.inodes[n].addrs[k]} :: 0 <= k <= NDIRECT ==> v.inodes[n].addrs[k] == 0
    ensures forall b {:trigger b in v.owner} :: b in v.owner <==> b in v0.owner && v0.owner[b].n != n
    ensures OthersSame(v0, v, n)
  {
    assert Open(true);
    forall b | b in v.owner
      ensures v0.owner[b].n != n
    {
      assert Ref(v.disk, v.inodes, v.owner[b]) == b;
    }
    forall m: nat | m < |v0.inodes| && m != n
      ensures NoHoles(v.disk, v.inodes, m) && Content(v.disk, v.inodes, m) == Content(v0.disk, v0.inodes, m)
    {
      assert NoHoles(v0.disk, v0.inodes, m);
      assert SameBut(v0.inodes, v.inodes, n) && v.inodes[m] == v0.inodes[m];
      ContentKept(sb, v0.disk, v0.inodes, v0.owner, v.disk, v.inodes, m);
    }
  }

  lemma CutFinished(sb: Superblock, v0: View, v: View, n: nat)
    requires FsOk(sb, v0) && n < |v0.inodes| && Cut(sb, v0, v, n, {})
    requires forall k {:trigger v.inodes[n].addrs[k]} :: 0 <= k <= NDIRECT ==> v.inodes[n].addrs[k] == 0
    ensures var inodes' := SetSize(v.inodes, n, 0);
            var v' := View(StoreInode(sb, v.disk, n, inodes'[n]), inodes', v.owner);
            FsOk(sb, v') && OthersUntouched(v0, v', n) && Content(v'.disk, v'.inodes, n) == []
  {
    AllCut(sb, v0, v, n);
    SetSizeKeeps(sb, v, n, 0);
    var v1 := View(v.disk, SetSize(v.inodes, n, 0), v.owner);
    forall m: nat | m < |v0.inodes| && m != n
      ensures NoHoles(v1.disk, v1.inodes, m) && Content(v1.disk, v1.inodes, m) == Content(v0.disk, v0.inodes, m)
    {
      assert NoHoles(v.disk, v.inodes, m);
      assert NoHoles(v1.disk, v1.inodes, m);
    }
    Finished(sb, v0, v1, n);
  }
}
