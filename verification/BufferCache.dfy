/** The buffer cache: NBUF buffers on one circular doubly linked list, most
    recently released first, over a disk that is read and written one block at a
    time. Buffers are numbered; number HEAD is the list head, of which only the
    links are used. The element type T stands for the contents of a block. */
module BufferCache {
  import opened Params

  const HEAD: nat := NBUF
  const ROOTDEV: nat := 1

  datatype Buf<T> = Buf(valid: bool, dev: nat, blockno: nat, locked: bool, refcnt: nat,
                        prev: nat, next: nat, data: T)

  // ---------- the list ----------

  /** The buffers met when walking the next links from the head round to the head. */
  function Ring(order: seq<nat>): seq<nat> {
    [HEAD] + order + [HEAD]
  }

  ghost predicate Distinct(order: seq<nat>) {
    && (forall i :: 0 <= i < |order| ==> order[i] < NBUF)
    && (forall i, j :: 0 <= i < j < |order| ==> order[i] != order[j])
  }

  /** The links of the head and of the buffers in order form one circular list in that order. */
  ghost predicate Linked<T>(bufs: seq<Buf<T>>, order: seq<nat>) {
    && |bufs| == NBUF + 1
    && Distinct(order)
    && var ring := Ring(order);
       forall i, j :: 0 <= i && j == i + 1 && j < |ring| ==>
                        bufs[ring[i]].next == ring[j] && bufs[ring[j]].prev == ring[i]
  }

  /** Everything but the links. */
  ghost predicate SameButLinks<T>(bufs: seq<Buf<T>>, bufs': seq<Buf<T>>) {
    && |bufs'| == |bufs|
    && forall b :: 0 <= b < |bufs| ==> bufs'[b] == bufs[b].(prev := bufs'[b].prev, next := bufs'[b].next)
  }

  function Without(order: seq<nat>, k: nat): seq<nat>
    requires k < |order|
  {
    order[..k] + order[k + 1..]
  }

  /** b->next->prev = b->prev; b->prev->next = b->next */
  function Unlink<T>(bufs: seq<Buf<T>>, b: nat): (bufs': seq<Buf<T>>)
    requires b < |bufs| && bufs[b].next < |bufs| && bufs[b].prev < |bufs|
  {
    var n, p := bufs[b].next, bufs[b].prev;
    var c := bufs[n := bufs[n].(prev := p)];
    c[p := c[p].(next := n)]
  }

  /** b->next = head.next; b->prev = &head; head.next->prev = b; head.next = b */
  function LinkFirst<T>(bufs: seq<Buf<T>>, b: nat): (bufs': seq<Buf<T>>)
    requires b < NBUF && |bufs| == NBUF + 1 && bufs[HEAD].next < |bufs|
  {
    var c := bufs[b := bufs[b].(next := bufs[HEAD].next, prev := HEAD)];
    var n := c[HEAD].next;
    var e := c[n := c[n].(prev := b)];
    e[HEAD := e[HEAD].(next := b)]
  }

  lemma WithoutRing(order: seq<nat>, k: nat)
    requires Distinct(order) && k < |order|
    ensures Distinct(Without(order, k)) && order[k] !in Without(order, k)
    ensures var ring, ring' := Ring(order), Ring(Without(order, k));
            |ring'| == |ring| - 1 && forall i :: 0 <= i < |ring'| ==> ring'[i] == ring[if i <= k then i else i + 1]
  {
  }

  lemma UnlinkIsLinked<T>(bufs: seq<Buf<T>>, order: seq<nat>, k: nat)
    requires Linked(bufs, order) && k < |order|
    ensures var b := order[k];
            && bufs[b].next <= NBUF && bufs[b].prev <= NBUF
            && Linked(Unlink(bufs, b), Without(order, k))
            && SameButLinks(bufs, Unlink(bufs, b))
  {
    var ring, b := Ring(order), order[k];
    assert ring[k + 1] == b;
    assert bufs[b].prev == ring[k] && bufs[b].next == ring[k + 2];
    var c, ring' := Unlink(bufs, b), Ring(Without(order, k));
    WithoutRing(order, k);
    RingIsInjective(order);
    forall i, j | 0 <= i && j == i + 1 && j < |ring'|
      ensures c[ring'[i]].next == ring'[j] && c[ring'[j]].prev == ring'[i]
    {
      var i' := if i <= k then i else i + 1;
      var j' := if j <= k then j else j + 1;
      assert ring'[i] == ring[i'] && ring'[j] == ring[j'];
      if i != k {
        assert j' == i' + 1 && bufs[ring[i']].next == ring[j'];
      }
    }
  }

  /** Only the head occurs twice on the ring, at its two ends. */
  lemma RingIsInjective(order: seq<nat>)
    requires Distinct(order)
    ensures var ring := Ring(order);
            forall i, j :: 0 <= i < j < |ring| && ring[i] == ring[j] ==> i == 0 && j == |ring| - 1
  {
  }

  lemma LinkFirstIsLinked<T>(bufs: seq<Buf<T>>, order: seq<nat>, b: nat)
    requires Linked(bufs, order) && b < NBUF && b !in order
    ensures bufs[HEAD].next <= NBUF
    ensures Linked(LinkFirst(bufs, b), [b] + order)
    ensures SameButLinks(bufs, LinkFirst(bufs, b))
  {
    var ring := Ring(order);
    assert bufs[ring[0]].next == ring[1];
    var c, ring' := LinkFirst(bufs, b), Ring([b] + order);
    assert forall i :: 0 <= i < |ring'| ==> ring'[i] == if i == 0 then HEAD else if i == 1 then b else ring[i - 1];
    RingIsInjective(order);
    forall i, j | 0 <= i && j == i + 1 && j < |ring'|
      ensures c[ring'[i]].next == ring'[j] && c[ring'[j]].prev == ring'[i]
    {
      if i >= 2 {
        assert bufs[ring[i - 1]].next == ring[i];
      }
    }
  }

  // ---------- identity of buffers ----------

  predicate Holds<T>(buf: Buf<T>, dev: nat, blockno: nat) {
    buf.dev == dev && buf.blockno == blockno
  }

  /** No two buffers hold the same block of a nonzero device. */
  ghost predicate Unique<T>(bufs: seq<Buf<T>>) {
    && |bufs| == NBUF + 1
    && forall a, b :: 0 <= a < b < NBUF && bufs[a].dev != 0 ==> !Holds(bufs[b], bufs[a].dev, bufs[a].blockno)
  }

  /** The buffer that holds a block of the root device, or HEAD. */
  ghost function Slot<T>(bufs: seq<Buf<T>>, n: nat): (b: nat)
    requires |bufs| == NBUF + 1
    ensures b <= HEAD
    ensures b != HEAD ==> Holds(bufs[b], ROOTDEV, n)
    ensures b == HEAD ==> forall c :: 0 <= c < NBUF ==> !Holds(bufs[c], ROOTDEV, n)
  {
    if b: nat :| b < NBUF && Holds(bufs[b], ROOTDEV, n) then b else HEAD
  }

  ghost function Ref<T>(bufs: seq<Buf<T>>, n: nat): nat
    requires |bufs| == NBUF + 1
  {
    var b := Slot(bufs, n);
    if b == HEAD then 0 else bufs[b].refcnt
  }

  ghost predicate IsLocked<T>(bufs: seq<Buf<T>>, n: nat)
    requires |bufs| == NBUF + 1
  {
    var b := Slot(bufs, n);
    b != HEAD && bufs[b].locked
  }

  // ---------- least recently used ----------

  /** The list is sorted by the time of each buffer's last move to the front, latest first. */
  ghost predicate ByRecency(order: seq<nat>, stamp: seq<nat>, clock: nat) {
    && |stamp| == NBUF
    && (forall i :: 0 <= i < |order| ==> order[i] < NBUF && stamp[order[i]] < clock)
    && (forall i, j :: 0 <= i < j < |order| ==> stamp[order[i]] > stamp[order[j]])
  }

  /** Buffer b is unused, and of all unused buffers its last move to the front is oldest. */
  predicate OldestUnused<T>(bufs: seq<Buf<T>>, stamp: seq<nat>, b: nat) {
    && |bufs| == NBUF + 1 && |stamp| == NBUF && b < NBUF && bufs[b].refcnt == 0
    && forall c :: 0 <= c < NBUF && c != b && bufs[c].refcnt == 0 ==> stamp[c] > stamp[b]
  }

  // ---------- agreement with the disk ----------

  /** contents is what was last left for each block: every valid buffer shows it, and the disk
      holds it too, except for blocks that a valid buffer in use keeps from being recycled. */
  ghost predicate Coherent<T>(bufs: seq<Buf<T>>, disk: seq<T>, contents: seq<T>) {
    && |bufs| == NBUF + 1 && |contents| == |disk|
    && (forall b :: 0 <= b < NBUF && bufs[b].locked ==> bufs[b].refcnt > 0)
    && (forall b :: 0 <= b < NBUF && bufs[b].dev != 0 ==> bufs[b].dev == ROOTDEV && bufs[b].blockno < |disk|)
    && (forall b :: 0 <= b < NBUF && bufs[b].valid ==> bufs[b].dev != 0 && bufs[b].data == contents[bufs[b].blockno])
    && (forall n: nat :: n < |disk| && disk[n] != contents[n] ==> Kept(bufs, n))
  }

  ghost predicate Kept<T>(bufs: seq<Buf<T>>, n: nat)
    requires |bufs| == NBUF + 1
  {
    exists b :: 0 <= b < NBUF && Holds(bufs[b], ROOTDEV, n) && bufs[b].valid && bufs[b].refcnt > 0
  }

  ghost predicate AllInUse<T>(bufs: seq<Buf<T>>, n: nat)
    requires |bufs| == NBUF + 1
  {
    Slot(bufs, n) == HEAD && forall c :: 0 <= c < NBUF ==> bufs[c].refcnt > 0
  }

  /** Buffer b is locked and shows block n. */
  ghost predicate Locks<T>(bufs: seq<Buf<T>>, b: nat, n: nat) {
    && |bufs| == NBUF + 1 && b < NBUF
    && Holds(bufs[b], ROOTDEV, n) && bufs[b].valid && bufs[b].locked && bufs[b].refcnt > 0
  }

  /** From bufs to bufs', block n, shown by buffer b, gets the given reference count and lock;
      links apart, no other buffer changes, and no other block's reference count or lock. */
  ghost predicate UpTo<T>(bufs: seq<Buf<T>>, bufs': seq<Buf<T>>, b: nat, n: nat, ref: nat, locked: bool)
  {
    && |bufs| == |bufs'| == NBUF + 1
    && Ref(bufs', n) == ref && IsLocked(bufs', n) == locked
    && (forall m: nat {:trigger Ref(bufs', m)} :: m != n ==> Ref(bufs', m) == Ref(bufs, m))
    && (forall m: nat {:trigger IsLocked(bufs', m)} :: m != n ==> IsLocked(bufs', m) == IsLocked(bufs, m))
    && (forall c :: 0 <= c < NBUF && c != b ==> bufs'[c] == bufs[c].(prev := bufs'[c].prev, next := bufs'[c].next))
  }

  lemma UpToThen<T>(bufs: seq<Buf<T>>, mid: seq<Buf<T>>, bufs': seq<Buf<T>>, b: nat, n: nat, ref: nat, locked: bool)
    requires UpTo(bufs, mid, b, n, ref, locked) && UpTo(mid, bufs', b, n, ref, locked)
    ensures UpTo(bufs, bufs', b, n, ref, locked)
  {
    forall m: nat | m != n
      ensures Ref(bufs', m) == Ref(bufs, m) && IsLocked(bufs', m) == IsLocked(bufs, m)
    {
      assert Ref(mid, m) == Ref(bufs, m) && IsLocked(mid, m) == IsLocked(bufs, m);
    }
  }

  lemma SlotIs<T>(bufs: seq<Buf<T>>, b: nat, n: nat)
    requires Unique(bufs) && b < NBUF && Holds(bufs[b], ROOTDEV, n)
    ensures Slot(bufs, n) == b
  {
  }

  /** If only buffer b changes, and it shows block n before and after, or takes block n over
      from an unused buffer's block, then no other block is affected. */
  lemma OneBuffer<T>(bufs: seq<Buf<T>>, bufs': seq<Buf<T>>, b: nat, n: nat)
    requires Unique(bufs) && Unique(bufs') && b < NBUF && Holds(bufs'[b], ROOTDEV, n)
    requires forall c :: 0 <= c < NBUF && c != b ==> bufs'[c] == bufs[c].(prev := bufs'[c].prev, next := bufs'[c].next)
    requires Holds(bufs[b], ROOTDEV, n) || (bufs[b].refcnt == 0 && !bufs[b].locked)
    ensures UpTo(bufs, bufs', b, n, bufs'[b].refcnt, bufs'[b].locked)
  {
    SlotIs(bufs', b, n);
    forall m: nat | m != n
      ensures Ref(bufs', m) == Ref(bufs, m) && IsLocked(bufs', m) == IsLocked(bufs, m)
    {
      var s := Slot(bufs, m);
      if s != HEAD && s != b {
        assert Holds(bufs'[s], ROOTDEV, m);
        SlotIs(bufs', s, m);
      } else {
        var s' := Slot(bufs', m);
        if s' != HEAD {
          assert s' != b;
          SlotIs(bufs, s', m);
        }
      }
    }
  }

  /** bufs' is bufs with the unused buffer b given to block blockno. */
  function Recycled<T>(bufs: seq<Buf<T>>, b: nat, dev: nat, blockno: nat): (bufs': seq<Buf<T>>)
    requires b < |bufs|
  {
    bufs[b := bufs[b].(dev := dev, blockno := blockno, valid := false, refcnt := 1)]
  }

  lemma RecyclingIsCoherent<T>(bufs: seq<Buf<T>>, disk: seq<T>, contents: seq<T>, b: nat, blockno: nat)
    requires Coherent(bufs, disk, contents) && Unique(bufs) && b < NBUF && bufs[b].refcnt == 0
    requires blockno < |disk| && forall c :: 0 <= c < NBUF ==> !Holds(bufs[c], ROOTDEV, blockno)
    ensures Coherent(Recycled(bufs, b, ROOTDEV, blockno), disk, contents)
    ensures Unique(Recycled(bufs, b, ROOTDEV, blockno))
  {
    var bufs' := Recycled(bufs, b, ROOTDEV, blockno);
    forall n: nat | n < |disk| && disk[n] != contents[n]
      ensures Kept(bufs', n)
    {
      var c :| 0 <= c < NBUF && Holds(bufs[c], ROOTDEV, n) && bufs[c].valid && bufs[c].refcnt > 0;
      assert Holds(bufs'[c], ROOTDEV, n);
    }
  }

  /** The rule for giving up references: the disk holds what the buffer of a block shows when
      its last reference goes, and a locked buffer keeps a reference. */
  predicate MayCount<T(==)>(buf: Buf<T>, disk: seq<T>, contents: seq<T>, ref: nat, locked: bool) {
    ref > 0 || (!locked && (buf.dev == 0 ||
                              (buf.blockno < |disk| == |contents| && disk[buf.blockno] == contents[buf.blockno])))
  }

  /** Changing a reference count or a lock is harmless exactly if it follows the rule. */
  lemma CountingIsCoherent<T>(bufs: seq<Buf<T>>, disk: seq<T>, contents: seq<T>, b: nat, ref: nat, locked: bool)
    requires Coherent(bufs, disk, contents) && Unique(bufs) && b < NBUF
    ensures var bufs' := bufs[b := bufs[b].(refcnt := ref, locked := locked)];
            && Unique(bufs')
            && (Coherent(bufs', disk, contents) <==> MayCount(bufs[b], disk, contents, ref, locked))
  {
    var bufs' := bufs[b := bufs[b].(refcnt := ref, locked := locked)];
    if MayCount(bufs[b], disk, contents, ref, locked) {
      forall n: nat | n < |disk| && disk[n] != contents[n]
        ensures Kept(bufs', n)
      {
        var c :| 0 <= c < NBUF && Holds(bufs[c], ROOTDEV, n) && bufs[c].valid && bufs[c].refcnt > 0;
        assert Holds(bufs'[c], ROOTDEV, n);
      }
    } else if locked {
      assert bufs'[b].locked && bufs'[b].refcnt == 0;
    } else {
      var n := bufs[b].blockno;
      assert n < |disk| && disk[n] != contents[n] && bufs'[b].refcnt == 0;
      assert !Kept(bufs', n) by {
        assert Holds(bufs'[b], ROOTDEV, n);
        assert Unique(bufs');
      }
    }
  }

  /** Reading the disk into a buffer that is not valid. */
  lemma FillingIsCoherent<T>(bufs: seq<Buf<T>>, disk: seq<T>, contents: seq<T>, b: nat)
    requires Coherent(bufs, disk, contents) && Unique(bufs) && b < NBUF && bufs[b].dev == ROOTDEV
    requires !bufs[b].valid
    ensures disk[bufs[b].blockno] == contents[bufs[b].blockno]
    ensures var bufs' := bufs[b := bufs[b].(data := disk[bufs[b].blockno], valid := true)];
            Coherent(bufs', disk, contents) && Unique(bufs')
  {
    var bufs' := bufs[b := bufs[b].(data := disk[bufs[b].blockno], valid := true)];
    forall n: nat | n < |disk| && disk[n] != contents[n]
      ensures Kept(bufs', n)
    {
      var c :| 0 <= c < NBUF && Holds(bufs[c], ROOTDEV, n) && bufs[c].valid && bufs[c].refcnt > 0;
      assert Holds(bufs'[c], ROOTDEV, n);
    }
    assert !Kept(bufs, bufs[b].blockno);
  }

  /** The buffers after buffer b has been locked and, if need be, filled from the disk. */
  function Filled<T>(bufs: seq<Buf<T>>, disk: seq<T>, b: nat): (bufs': seq<Buf<T>>)
    requires b < |bufs| && bufs[b].blockno < |disk|
  {
    var e := bufs[b := bufs[b].(locked := true)];
    if e[b].valid then e else e[b := e[b].(data := disk[e[b].blockno], valid := true)]
  }

  lemma SameLinks<T>(bufs: seq<Buf<T>>, bufs': seq<Buf<T>>, order: seq<nat>)
    requires Linked(bufs, order) && |bufs'| == |bufs|
    requires forall b :: 0 <= b < |bufs| ==> bufs'[b].prev == bufs[b].prev && bufs'[b].next == bufs[b].next
    ensures Linked(bufs', order)
  {
  }

  lemma StoringIsSound<T>(bufs: seq<Buf<T>>, disk: seq<T>, contents: seq<T>, order: seq<nat>, b: nat, v: T)
    requires Coherent(bufs, disk, contents) && Unique(bufs) && Linked(bufs, order)
    requires b < NBUF && Locks(bufs, b, bufs[b].blockno)
    ensures var bufs', n := bufs[b := bufs[b].(data := v)], bufs[b].blockno;
            && Coherent(bufs', disk, contents[n := v]) && Unique(bufs') && Linked(bufs', order)
            && UpTo(bufs, bufs', b, n, bufs[b].refcnt, true)
  {
    var bufs', n := bufs[b := bufs[b].(data := v)], bufs[b].blockno;
    forall m: nat | m < |disk| && disk[m] != contents[n := v][m]
      ensures Kept(bufs', m)
    {
      if m == n {
        assert Holds(bufs'[b], ROOTDEV, m);
      } else {
        var c :| 0 <= c < NBUF && Holds(bufs[c], ROOTDEV, m) && bufs[c].valid && bufs[c].refcnt > 0;
        assert Holds(bufs'[c], ROOTDEV, m);
      }
    }
    SameLinks(bufs, bufs', order);
    OneBuffer(bufs, bufs', b, n);
  }

  /** For a buffer of the root device, no other block is affected either. */
  lemma CountingIsLocal<T>(bufs: seq<Buf<T>>, b: nat, ref: nat, locked: bool)
    requires Unique(bufs) && b < NBUF && bufs[b].dev == ROOTDEV
    ensures UpTo(bufs, bufs[b := bufs[b].(refcnt := ref, locked := locked)], b, bufs[b].blockno, ref, locked)
  {
    OneBuffer(bufs, bufs[b := bufs[b].(refcnt := ref, locked := locked)], b, bufs[b].blockno);
  }

  /** Moving the buffer at position k to the front. */
  lemma MovingIsLinked<T>(bufs: seq<Buf<T>>, order: seq<nat>, k: nat)
    requires Linked(bufs, order) && k < |order|
    ensures var b := order[k];
            && bufs[b].next <= NBUF && bufs[b].prev <= NBUF && Unlink(bufs, b)[HEAD].next <= NBUF
            && var bufs' := LinkFirst(Unlink(bufs, b), b);
               Linked(bufs', [b] + Without(order, k)) && SameButLinks(bufs, bufs')
  {
    var b := order[k];
    UnlinkIsLinked(bufs, order, k);
    WithoutRing(order, k);
    LinkFirstIsLinked(Unlink(bufs, b), Without(order, k), b);
  }

  lemma LinksDoNotMatter<T>(bufs: seq<Buf<T>>, bufs': seq<Buf<T>>, disk: seq<T>, contents: seq<T>)
    requires |bufs| == NBUF + 1 && SameButLinks(bufs, bufs')
    ensures Unique(bufs) ==> Unique(bufs')
    ensures Coherent(bufs', disk, contents) <==> Coherent(bufs, disk, contents)
  {
    assert SameButLinks(bufs', bufs);
    if Coherent(bufs, disk, contents) {
      StillCoherent(bufs, bufs', disk, contents);
    }
    if Coherent(bufs', disk, contents) {
      StillCoherent(bufs', bufs, disk, contents);
    }
  }

  lemma StillCoherent<T>(bufs: seq<Buf<T>>, bufs': seq<Buf<T>>, disk: seq<T>, contents: seq<T>)
    requires Coherent(bufs, disk, contents) && SameButLinks(bufs, bufs')
    ensures Coherent(bufs', disk, contents)
  {
    forall n: nat | n < |disk| && disk[n] != contents[n]
      ensures Kept(bufs', n)
    {
      var c :| 0 <= c < NBUF && Holds(bufs[c], ROOTDEV, n) && bufs[c].valid && bufs[c].refcnt > 0;
      assert Holds(bufs'[c], ROOTDEV, n);
    }
  }

  lemma MovingIsByRecency(order: seq<nat>, stamp: seq<nat>, clock: nat, k: nat)
    requires Distinct(order) && ByRecency(order, stamp, clock) && k < |order|
    requires forall b: nat :: b < NBUF ==> b in order
    ensures var b, order' := order[k], [order[k]] + Without(order, k);
            && ByRecency(order', stamp[b := clock], clock + 1)
            && forall c: nat :: c < NBUF ==> c in order'
  {
    var b, order' := order[k], [order[k]] + Without(order, k);
    WithoutRing(order, k);
    forall c: nat | c < NBUF
      ensures c in order'
    {
      assert c in order;
      var i :| 0 <= i < |order| && order[i] == c;
      assert i < k ==> order'[i + 1] == c;
      assert i == k ==> order'[0] == c;
      assert i > k ==> order'[i] == c;
    }
  }

  /** All that moving a buffer to the front keeps. */
  lemma MovingIsValid<T>(bufs: seq<Buf<T>>, order: seq<nat>, stamp: seq<nat>, clock: nat, disk: seq<T>,
                         contents: seq<T>, k: nat)
    requires Linked(bufs, order) && Unique(bufs) && ByRecency(order, stamp, clock) && k < |order|
    requires forall b: nat :: b < NBUF ==> b in order
    ensures var b, order' := order[k], [order[k]] + Without(order, k);
            && bufs[b].next <= NBUF && bufs[b].prev <= NBUF && Unlink(bufs, b)[HEAD].next <= NBUF
            && var bufs' := LinkFirst(Unlink(bufs, b), b);
               && Linked(bufs', order') && Unique(bufs') && SameButLinks(bufs, bufs')
               && ByRecency(order', stamp[b := clock], clock + 1) && (forall c: nat :: c < NBUF ==> c in order')
               && (Coherent(bufs', disk, contents) <==> Coherent(bufs, disk, contents))
  {
    MovingIsLinked(bufs, order, k);
    MovingIsByRecency(order, stamp, clock, k);
    LinksDoNotMatter(bufs, LinkFirst(Unlink(bufs, order[k]), order[k]), disk, contents);
  }

  /** bread's changes, first by bget and then to the buffer found, affect no other block. */
  lemma ReadIsLocal<T>(bufs: seq<Buf<T>>, mid: seq<Buf<T>>, bufs': seq<Buf<T>>, b: nat, n: nat)
    requires Unique(bufs) && Unique(bufs') && |mid| == NBUF + 1 && b < NBUF
    requires mid == bufs[b := mid[b]] && bufs' == mid[b := bufs'[b]]
    requires Holds(bufs'[b], ROOTDEV, n) && bufs'[b].refcnt == mid[b].refcnt
    requires if Holds(bufs[b], ROOTDEV, n) then mid[b].refcnt == bufs[b].refcnt + 1
             else mid[b].refcnt == 1 && bufs[b].refcnt == 0 && !bufs[b].locked && Slot(bufs, n) == HEAD
    ensures UpTo(bufs, bufs', b, n, Ref(bufs, n) + 1, bufs'[b].locked)
    ensures IsLocked(bufs, n) <==> Holds(bufs[b], ROOTDEV, n) && bufs[b].locked
  {
    if Holds(bufs[b], ROOTDEV, n) {
      SlotIs(bufs, b, n);
    }
    OneBuffer(bufs, bufs', b, n);
  }

  // ---------- the cache as bio.c runs it ----------

  class Cache<T> {
    var bufs: seq<Buf<T>>
    var disk: seq<T>
    ghost var order: seq<nat>
    ghost var stamp: seq<nat>         // when each buffer was last moved to the front
    ghost var clock: nat
    ghost var contents: seq<T>        // what was last left for each block
    ghost var history: seq<seq<T>>    // the disk after each write so far

    /** What every operation keeps, whatever its callers do. */
    ghost predicate Valid()
      reads this
    {
      && Linked(bufs, order)
      && (forall b: nat :: b < NBUF ==> b in order)
      && ByRecency(order, stamp, clock)
      && Unique(bufs)
    }

    /** What the operations keep for callers that follow the rules of the cache. */
    ghost predicate Sound()
      reads this
    {
      Valid() && Coherent(bufs, disk, contents)
    }

    ghost function Now(): Moment<T>
      reads this
    {
      Moment(bufs, stamp, clock)
    }

    /** binit: each buffer in turn goes to the front of the list. */
    constructor (initial: seq<T>, junk: T)
      ensures Sound() && disk == contents == initial && history == []
      ensures AtFirst(Now())
    {
      var bs := seq(NBUF + 1, i => Buf(false, 0, 0, false, 0, HEAD, HEAD, junk));
      ghost var list: seq<nat> := [];
      var b := 0;
      while b < NBUF
        invariant 0 <= b <= NBUF
        invariant Linked(bs, list) && |list| == b
        invariant forall i :: 0 <= i < b ==> list[i] == b - 1 - i
        invariant forall c :: 0 <= c < NBUF ==> bs[c] == Buf(false, 0, 0, false, 0, bs[c].prev, bs[c].next, junk)
      {
        LinkFirstIsLinked(bs, list, b);
        ghost var before := bs;
        bs := LinkFirst(bs, b);
        assert SameButLinks(before, bs);
        list := [b] + list;
        b := b + 1;
      }
      forall c: nat | c < NBUF
        ensures c in list
      {
        assert list[NBUF - 1 - c] == c;
      }
      bufs, disk, order, contents, history := bs, initial, list, initial, [];
      stamp, clock := seq(NBUF, i => i), NBUF;
    }

    /** bget's first scan, from the most recently released buffer. */
    method FindCached(dev: nat, blockno: nat) returns (b: nat)
      requires Valid()
      ensures b <= HEAD
      ensures b != HEAD ==> Holds(bufs[b], dev, blockno)
      ensures b == HEAD ==> forall c :: 0 <= c < NBUF ==> !Holds(bufs[c], dev, blockno)
    {
      ghost var ring := Ring(order);
      ghost var i := 1;
      assert bufs[ring[0]].next == ring[1];
      b := bufs[HEAD].next;
      while b != HEAD
        invariant 1 <= i < |ring| && ring[i] == b
        invariant forall k :: 0 < k < i ==> ring[k] != HEAD && !Holds(bufs[ring[k]], dev, blockno)
        decreases |ring| - i
      {
        if bufs[b].dev == dev && bufs[b].blockno == blockno {
          return;
        }
        assert bufs[ring[i]].next == ring[i + 1];
        b := bufs[b].next;
        i := i + 1;
      }
      forall c | 0 <= c < NBUF
        ensures !Holds(bufs[c], dev, blockno)
      {
        var k := OnRing(order, c);
      }
    }

    /** bget's second scan, from the least recently released buffer. */
    method FindUnused() returns (b: nat)
      requires Valid()
      ensures b <= HEAD
      ensures b == HEAD ==> forall c :: 0 <= c < NBUF ==> bufs[c].refcnt > 0
      ensures b != HEAD ==> OldestUnused(bufs, stamp, b)
    {
      ghost var ring := Ring(order);
      ghost var i := |ring| - 2;
      assert bufs[ring[|ring| - 1]].prev == ring[i];
      b := bufs[HEAD].prev;
      while b != HEAD
        invariant 0 <= i < |ring| - 1 && ring[i] == b
        invariant forall k :: i < k < |ring| - 1 ==> bufs[ring[k]].refcnt > 0
        decreases i
      {
        if bufs[b].refcnt == 0 {
          break;
        }
        assert bufs[ring[i]].prev == ring[i - 1];
        b := bufs[b].prev;
        i := i - 1;
      }
      forall c | 0 <= c < NBUF && c != b
        ensures bufs[c].refcnt == 0 ==> b != HEAD && stamp[c] > stamp[b]
      {
        var k := OnRing(order, c);
        assert ring[k] == order[k - 1];
        assert i > 0 ==> ring[i] == order[i - 1];
      }
    }

    /** A buffer's reference count and lock change, and nothing else. */
    method SetCount(b: nat, ref: nat, locked: bool)
      requires Valid() && b < NBUF
      modifies this`bufs
      ensures Valid() && bufs == old(bufs)[b := old(bufs)[b].(refcnt := ref, locked := locked)]
      ensures old(Sound()) ==> (Sound() <==> MayCount(old(bufs)[b], disk, contents, ref, locked))
      ensures bufs[b].dev == ROOTDEV ==> UpTo(old(bufs), bufs, b, bufs[b].blockno, ref, locked)
    {
      if Coherent(bufs, disk, contents) {
        CountingIsCoherent(bufs, disk, contents, b, ref, locked);
      }
      if bufs[b].dev == ROOTDEV {
        CountingIsLocal(bufs, b, ref, locked);
      }
      bufs := bufs[b := bufs[b].(refcnt := ref, locked := locked)];
      SameLinks(old(bufs), bufs, order);
    }

    /** bget up to its release of bcache.lock. The result HEAD stands for the panic, which
        happens exactly when the block is not cached and every buffer is in use. */
    method Bget(dev: nat, blockno: nat) returns (b: nat)
      requires Valid()
      modifies this`bufs
      ensures Valid() && b <= HEAD
      ensures b == HEAD <==> (forall c :: 0 <= c < NBUF ==>
                                !Holds(old(bufs)[c], dev, blockno) && old(bufs)[c].refcnt > 0)
      ensures b == HEAD ==> bufs == old(bufs)
      ensures b != HEAD && Holds(old(bufs)[b], dev, blockno) ==>
                bufs == old(bufs)[b := old(bufs)[b].(refcnt := old(bufs)[b].refcnt + 1)]
      ensures b != HEAD && !Holds(old(bufs)[b], dev, blockno) ==>
                && (forall c :: 0 <= c < NBUF ==> !Holds(old(bufs)[c], dev, blockno))
                && OldestUnused(old(bufs), stamp, b)
                && bufs == Recycled(old(bufs), b, dev, blockno)
      ensures old(Sound()) && dev == ROOTDEV && blockno < |disk| ==> Sound()
    {
      b := FindCached(dev, blockno);
      if b != HEAD {
        SetCount(b, bufs[b].refcnt + 1, bufs[b].locked);
        return;
      }
      b := FindUnused();
      if b != HEAD {
        Recycle(b, dev, blockno);
      }
    }

    /** bget's recycling of buffer b. */
    method Recycle(b: nat, dev: nat, blockno: nat)
      requires Valid() && b < NBUF && bufs[b].refcnt == 0
      requires forall c :: 0 <= c < NBUF ==> !Holds(bufs[c], dev, blockno)
      modifies this`bufs
      ensures Valid() && bufs == Recycled(old(bufs), b, dev, blockno)
      ensures old(Sound()) && dev == ROOTDEV && blockno < |disk| ==> Sound()
    {
      if Coherent(bufs, disk, contents) && dev == ROOTDEV && blockno < |disk| {
        RecyclingIsCoherent(bufs, disk, contents, b, blockno);
      }
      bufs := Recycled(bufs, b, dev, blockno);
      SameLinks(old(bufs), bufs, order);
    }

    /** acquiresleep on the lock of a buffer, once: false means that another process has it. */
    method Acquire(b: nat) returns (got: bool)
      requires Valid() && b < NBUF && bufs[b].refcnt > 0
      modifies this`bufs
      ensures Valid() && (got <==> !old(bufs)[b].locked)
      ensures bufs == old(bufs)[b := old(bufs)[b].(locked := true)]
      ensures old(Sound()) ==> Sound()
    {
      got := !bufs[b].locked;
      if got {
        SetCount(b, bufs[b].refcnt, true);
      }
    }

    /** The end of bread, with the reference counted: the process waits for the buffer's sleep
        lock, and then reads the disk unless the buffer is valid. */
    method LockAndFill(b: nat) returns (got: bool)
      requires Sound() && b < NBUF && bufs[b].refcnt > 0 && bufs[b].dev == ROOTDEV
      modifies this`bufs
      ensures Sound() && (got <==> !old(bufs)[b].locked)
      ensures !got ==> bufs == old(bufs)
      ensures got ==> && Locks(bufs, b, bufs[b].blockno) && bufs[b].data == contents[bufs[b].blockno]
                      && bufs == Filled(old(bufs), disk, b)
    {
      got := Acquire(b);
      if got && !bufs[b].valid {
        FillIn(b);
      }
    }

    /** bread's disk read. */
    method FillIn(b: nat)
      requires Sound() && b < NBUF && bufs[b].dev == ROOTDEV && !bufs[b].valid
      modifies this`bufs
      ensures Sound() && old(bufs)[b].blockno < |disk|
      ensures bufs == old(bufs)[b := old(bufs)[b].(data := disk[old(bufs)[b].blockno], valid := true)]
    {
      FillingIsCoherent(bufs, disk, contents, b);
      bufs := bufs[b := bufs[b].(data := disk[bufs[b].blockno], valid := true)];
      SameLinks(old(bufs), bufs, order);
    }

    /** bread. If another process has the buffer's sleep lock, the reference is counted and the
        caller goes on with LockAndFill when it wakes up. */
    method Bread(n: nat) returns (b: nat, got: bool)
      requires Sound() && n < |disk|
      modifies this`bufs
      ensures Sound() && b <= HEAD
      ensures b == HEAD <==> AllInUse(old(bufs), n)
      ensures b == HEAD ==> bufs == old(bufs) && !got
      ensures b != HEAD ==> && Holds(bufs[b], ROOTDEV, n) && (got <==> !IsLocked(old(bufs), n))
                            && UpTo(old(bufs), bufs, b, n, Ref(old(bufs), n) + 1, true)
      ensures got ==> Locks(bufs, b, n) && bufs[b].data == contents[n]
    {
      b := Bget(ROOTDEV, n);
      if b == HEAD {
        return b, false;
      }
      ghost var mid := bufs;
      got := LockAndFill(b);
      assert Holds(old(bufs)[b], ROOTDEV, n) || !old(bufs)[b].locked;
      ReadIsLocal(old(bufs), mid, bufs, b, n);
    }

    /** The holder of a buffer changes its data. */
    method Store(b: nat, v: T)
      requires Sound() && b < NBUF && Locks(bufs, b, bufs[b].blockno)
      modifies this`bufs, this`contents
      ensures Sound()
      ensures bufs == old(bufs)[b := old(bufs)[b].(data := v)]
      ensures contents == old(contents)[bufs[b].blockno := v]
      ensures UpTo(old(bufs), bufs, b, bufs[b].blockno, bufs[b].refcnt, true)
    {
      StoringIsSound(bufs, disk, contents, order, b, v);
      contents := contents[bufs[b].blockno := v];
      bufs := bufs[b := bufs[b].(data := v)];
    }

    /** bwrite by the holder of the buffer. */
    method Bwrite(b: nat)
      requires Sound() && b < NBUF && Locks(bufs, b, bufs[b].blockno)
      modifies this`disk, this`history
      ensures Sound()
      ensures disk == old(disk)[bufs[b].blockno := contents[bufs[b].blockno]]
      ensures history == old(history) + [disk]
    {
      disk := disk[bufs[b].blockno := bufs[b].data];
      history := history + [disk];
    }

    /** brelse. The result false is the panic. A caller may give up the last reference to
        contents that the disk lacks; the cache is sound afterwards exactly if it does not. */
    method Brelse(b: nat) returns (ok: bool)
      requires Valid() && b < NBUF && bufs[b].refcnt > 0
      modifies this`bufs, this`order, this`stamp, this`clock
      ensures Valid() && (ok <==> old(bufs)[b].locked)
      ensures !ok ==> bufs == old(bufs)
      ensures ok ==> SameButLinks(old(bufs)[b := old(bufs)[b].(locked := false, refcnt := old(bufs)[b].refcnt - 1)],
                                  bufs)
      ensures !ok || old(bufs)[b].refcnt > 1 ==> order == old(order) && stamp == old(stamp) && clock == old(clock)
      ensures ok && old(bufs)[b].refcnt == 1 ==>
                order != [] && order[0] == b && stamp == old(stamp)[b := old(clock)] && clock == old(clock) + 1
      ensures ok && old(Sound()) ==>
                (Sound() <==> MayCount(old(bufs)[b], disk, contents, old(bufs)[b].refcnt - 1, false))
      ensures ok && old(bufs)[b].dev == ROOTDEV ==>
                UpTo(old(bufs), bufs, b, old(bufs)[b].blockno, old(bufs)[b].refcnt - 1, false)
    {
      if !bufs[b].locked {
        return false;
      }
      ok := true;
      SetCount(b, bufs[b].refcnt - 1, false);
      if bufs[b].refcnt == 0 {
        ghost var before := bufs;
        MoveToFront(b);
        if bufs[b].dev == ROOTDEV {
          OneBuffer(before, bufs, b, bufs[b].blockno);
          UpToThen(old(bufs), before, bufs, b, bufs[b].blockno, 0, false);
        }
      }
    }

    /** brelse's six link updates. */
    method MoveToFront(b: nat)
      requires Valid() && b < NBUF
      modifies this`bufs, this`order, this`stamp, this`clock
      ensures Valid() && SameButLinks(old(bufs), bufs)
      ensures order != [] && order[0] == b && stamp == old(stamp)[b := old(clock)] && clock == old(clock) + 1
      ensures Coherent(bufs, disk, contents) <==> old(Coherent(bufs, disk, contents))
    {
      assert b in order;
      ghost var k :| 0 <= k < |order| && order[k] == b;
      MovingIsValid(bufs, order, stamp, clock, disk, contents, k);
      bufs := LinkFirst(Unlink(bufs, b), b);
      order := [b] + Without(order, k);
      stamp, clock := stamp[b := clock], clock + 1;
    }

    /** bpin, by any caller. */
    method Bpin(b: nat)
      requires Valid() && b < NBUF
      modifies this`bufs
      ensures Valid() && (old(Sound()) ==> Sound())
      ensures bufs == old(bufs)[b := old(bufs)[b].(refcnt := old(bufs)[b].refcnt + 1)]
      ensures bufs[b].dev == ROOTDEV ==>
                UpTo(old(bufs), bufs, b, bufs[b].blockno, old(bufs)[b].refcnt + 1, bufs[b].locked)
    {
      SetCount(b, bufs[b].refcnt + 1, bufs[b].locked);
    }

    /** bunpin, by any caller: the cache stays sound exactly if the reference may be given up. */
    method Bunpin(b: nat)
      requires Valid() && b < NBUF && bufs[b].refcnt > 0
      modifies this`bufs
      ensures Valid()
      ensures bufs == old(bufs)[b := old(bufs)[b].(refcnt := old(bufs)[b].refcnt - 1)]
      ensures old(Sound()) ==> (Sound() <==> MayCount(old(bufs)[b], disk, contents, bufs[b].refcnt, bufs[b].locked))
      ensures bufs[b].dev == ROOTDEV ==>
                UpTo(old(bufs), bufs, b, bufs[b].blockno, old(bufs)[b].refcnt - 1, bufs[b].locked)
    {
      SetCount(b, bufs[b].refcnt - 1, bufs[b].locked);
    }
  }

  lemma OnRing(order: seq<nat>, b: nat) returns (k: nat)
    requires Distinct(order) && b in order
    ensures 0 < k <= |order| && Ring(order)[k] == b
  {
    var i :| 0 <= i < |order| && order[i] == b;
    k := i + 1;
  }

  // ---------- runs ----------

  datatype Request = Get(dev: nat, blockno: nat) | Lock(b: nat) | Release(b: nat) | Pin(b: nat) | Unpin(b: nat)

  datatype Moment<T> = Moment(bufs: seq<Buf<T>>, stamp: seq<nat>, clock: nat)

  /** What binit leaves: all buffers unused, as if moved to the front one after another. */
  ghost predicate AtFirst<T>(m: Moment<T>) {
    && |m.bufs| == NBUF + 1 && |m.stamp| == NBUF == m.clock
    && forall b :: 0 <= b < NBUF ==>
         m.bufs[b].dev == 0 && m.bufs[b].refcnt == 0 && !m.bufs[b].locked && m.stamp[b] == b
  }

  /** The request gives up the last reference to a locked buffer, so that it moves to the front. */
  predicate Moves<T>(m: Moment<T>, req: Request) {
    req.Release? && req.b < NBUF < |m.bufs| && m.bufs[req.b].locked && m.bufs[req.b].refcnt == 1
  }

  /** From m to m', stamp records the moves to the front. */
  predicate Stamped<T>(m: Moment<T>, req: Request, m': Moment<T>) {
    && |m.stamp| == NBUF
    && m'.stamp == (if Moves(m, req) then m.stamp[req.b := m.clock] else m.stamp)
    && m'.clock == (if Moves(m, req) then m.clock + 1 else m.clock)
  }

  /** The request counts, or drops, the reference that it should, and locks or unlocks: a
      buffer x has become y. */
  ghost predicate Counted<T>(x: Buf<T>, req: Request, mine: bool, y: Buf<T>) {
    match req
    case Get(dev, blockno) =>
      if mine then Holds(y, dev, blockno) && y.refcnt == (if Holds(x, dev, blockno) then x.refcnt + 1 else 1)
      else y == x
    case Lock(_) => y.refcnt == x.refcnt && y.locked == (x.locked || (mine && x.refcnt > 0))
    case Release(_) =>
      if mine && x.refcnt > 0 && x.locked then y.refcnt == x.refcnt - 1 && !y.locked
      else y.refcnt == x.refcnt && y.locked == x.locked
    case Pin(_) => y.refcnt == x.refcnt + (if mine then 1 else 0) && y.locked == x.locked
    case Unpin(_) => y.refcnt == (if mine && x.refcnt > 0 then x.refcnt - 1 else x.refcnt) && y.locked == x.locked
  }

  ghost predicate AllCounted<T>(m: Moment<T>, req: Request, b: nat, m': Moment<T>)
    requires |m.bufs| == |m'.bufs| == NBUF + 1
  {
    forall c :: 0 <= c < NBUF ==> Counted(m.bufs[c], req, b == c, m'.bufs[c])
  }

  /** bget gets a buffer for the block, unless none has it and all are in use. */
  ghost predicate Served<T>(m: Moment<T>, req: Request, m': Moment<T>)
    requires |m.bufs| == |m'.bufs| == NBUF + 1
  {
    if !req.Get? then AllCounted(m, req, req.b, m')
    else if forall c :: 0 <= c < NBUF ==> !Holds(m.bufs[c], req.dev, req.blockno) && m.bufs[c].refcnt > 0
    then m' == m
    else exists b: nat :: b < NBUF && AllCounted(m, req, b, m')
  }

  /** Besides, a buffer comes to hold another block only if it is unused, and for longest. */
  ghost predicate Follows<T>(m: Moment<T>, req: Request, m': Moment<T>) {
    && |m.bufs| == |m'.bufs| == NBUF + 1 && Stamped(m, req, m') && Served(m, req, m')
    && forall c :: 0 <= c < NBUF && !Holds(m'.bufs[c], m.bufs[c].dev, m.bufs[c].blockno) ==>
                     req.Get? && Holds(m'.bufs[c], req.dev, req.blockno) && OldestUnused(m.bufs, m.stamp, c)
  }

  /** One request, by any caller that drops only references that are there. */
  method Step<T>(cache: Cache<T>, req: Request)
    requires cache.Valid()
    modifies cache
    ensures cache.Valid()
    ensures Follows(old(cache.Now()), req, cache.Now())
  {
    if req.Get? {
      var b := cache.Bget(req.dev, req.blockno);
      assert b != HEAD ==> AllCounted(old(cache.Now()), req, b, cache.Now());
    } else if req.b < NBUF {
      HolderStep(cache, req);
    }
  }

  method HolderStep<T>(cache: Cache<T>, req: Request)
    requires cache.Valid() && !req.Get? && req.b < NBUF
    modifies cache
    ensures cache.Valid() && Stamped(old(cache.Now()), req, cache.Now())
    ensures AllCounted(old(cache.Now()), req, req.b, cache.Now())
    ensures forall c :: 0 <= c < NBUF ==> Holds(cache.bufs[c], old(cache.bufs)[c].dev, old(cache.bufs)[c].blockno)
  {
    if req.Pin? {
      cache.Bpin(req.b);
    } else if cache.bufs[req.b].refcnt > 0 {
      match req {
        case Lock(b) =>
          var got := cache.Acquire(b);
        case Release(b) =>
          var ok := cache.Brelse(b);
        case Unpin(b) =>
          cache.Bunpin(b);
      }
    }
  }

  /** Any requests, from binit on: one ring of all buffers in the order of their last moves to the
      front, no block in two buffers, and every buffer recycled on the way was the least recently
      used one. */
  method Run<T>(initial: seq<T>, junk: T, requests: seq<Request>)
    returns (cache: Cache<T>, ghost moments: seq<Moment<T>>)
    ensures cache.Valid() && |moments| == |requests| + 1
    ensures AtFirst(moments[0]) && moments[|requests|] == cache.Now()
    ensures forall k :: 0 <= k < |requests| ==> Follows(moments[k], requests[k], moments[k + 1])
  {
    cache := new Cache(initial, junk);
    moments := [cache.Now()];
    for k := 0 to |requests|
      invariant fresh(cache) && cache.Valid() && |moments| == k + 1 && AtFirst(moments[0]) && moments[k] == cache.Now()
      invariant forall j :: 0 <= j < k ==> Follows(moments[j], requests[j], moments[j + 1])
    {
      Step(cache, requests[k]);
      moments := moments + [cache.Now()];
    }
  }
}
