/** The virtqueue of virtio_disk.c: descriptors in chains of three, and two rings with free
    running 16-bit indices. See "Split Virtqueues", section 2.6 of VIRTIO 1.1. */
module Virtqueue {

  const NUM: nat := 8
  const IDXMOD: nat := 0x1_0000     // avail->idx, used->idx and used_idx are uint16

  datatype Request = Request(write: bool, sector: nat, buf: nat)

  /** mid and last: the other two descriptors of a chain. */
  datatype Chain = Chain(mid: nat, last: nat, req: Request)

  // ---------- descriptors ----------

  function Count(free: seq<bool>): nat {
    if free == [] then 0 else (if free[|free| - 1] then 1 else 0) + Count(free[..|free| - 1])
  }

  lemma {:induction false} CountPut(free: seq<bool>, i: nat, v: bool)
    requires i < |free|
    ensures Count(free[i := v]) == Count(free) - (if free[i] then 1 else 0) + (if v then 1 else 0)
  {
    var n := |free| - 1;
    var f := free[i := v];
    if i < n {
      assert f[..n] == free[..n][i := v];
      CountPut(free[..n], i, v);
    } else {
      assert f[..n] == free[..n];
    }
  }

  lemma {:induction false} AllFree(free: seq<bool>)
    requires forall i :: 0 <= i < |free| ==> free[i]
    ensures Count(free) == |free|
  {
    if free != [] {
      AllFree(free[..|free| - 1]);
    }
  }

  lemma CountThree(free: seq<bool>, a: nat, b: nat, c: nat, v: bool)
    requires a < |free| && b < |free| && c < |free| && a != b && a != c && b != c
    requires free[a] != v && free[b] != v && free[c] != v
    ensures Count(free[a := v][b := v][c := v]) == Count(free) + if v then 3 else -3
  {
    CountPut(free, a, v);
    CountPut(free[a := v], b, v);
    CountPut(free[a := v][b := v], c, v);
  }

  /** home[d] is the head of the chain that descriptor d belongs to, or NUM if d is free. */
  ghost predicate ChainsOk(free: seq<bool>, next: seq<nat>, more: seq<bool>, chains: map<nat, Chain>, home: seq<nat>) {
    && |free| == |next| == |more| == |home| == NUM
    && (forall d {:trigger home[d]} :: 0 <= d < NUM ==> (free[d] <==> home[d] == NUM))
    && (forall d {:trigger home[d]} :: 0 <= d < NUM && home[d] != NUM ==>
          home[d] in chains && InChain(home[d], chains[home[d]], d))
    && (forall h {:trigger chains[h]} :: h in chains ==> ChainOk(next, more, home, h, chains[h]))
  }

  predicate InChain(h: nat, c: Chain, d: nat) { d == h || d == c.mid || d == c.last }

  predicate ChainOk(next: seq<nat>, more: seq<bool>, home: seq<nat>, h: nat, c: Chain) {
    && |next| == |more| == |home| == NUM
    && h < NUM && c.mid < NUM && c.last < NUM && h != c.mid && h != c.last && c.mid != c.last
    && home[h] == h && home[c.mid] == h && home[c.last] == h
    && more[h] && next[h] == c.mid && more[c.mid] && next[c.mid] == c.last && !more[c.last]
  }

  /** Three free descriptors become a chain. */
  lemma ChainAdded(free: seq<bool>, next: seq<nat>, more: seq<bool>, chains: map<nat, Chain>, home: seq<nat>, h: nat,
                   c: Chain)
    requires ChainsOk(free, next, more, chains, home)
    requires h < NUM && c.mid < NUM && c.last < NUM && h != c.mid && h != c.last && c.mid != c.last
    requires free[h] && free[c.mid] && free[c.last]
    ensures h !in chains
    ensures ChainsOk(free[h := false][c.mid := false][c.last := false], next[h := c.mid][c.mid := c.last][c.last := 0],
                     more[h := true][c.mid := true][c.last := false], chains[h := c],
                     home[h := h][c.mid := h][c.last := h])
  {
    assert home[h] == NUM && home[c.mid] == NUM && home[c.last] == NUM;
    assert h in chains ==> ChainOk(next, more, home, h, chains[h]);
    var next', more' := next[h := c.mid][c.mid := c.last][c.last := 0], more[h := true][c.mid := true][c.last := false];
    var home' := home[h := h][c.mid := h][c.last := h];
    forall g | g in chains
      ensures ChainOk(next', more', home', g, chains[g])
    {
      assert ChainOk(next, more, home, g, chains[g]);
    }
    forall d | 0 <= d < NUM && home'[d] != NUM
      ensures home'[d] in chains[h := c] && InChain(home'[d], chains[h := c][home'[d]], d)
    {
      assert home[d] != NUM ==> home[d] in chains;
    }
  }

  /** A chain becomes three free descriptors. */
  lemma ChainRemoved(free: seq<bool>, next: seq<nat>, more: seq<bool>, chains: map<nat, Chain>, home: seq<nat>, h: nat)
    requires ChainsOk(free, next, more, chains, home) && h in chains
    ensures var c := chains[h];
            && h < NUM && c.mid < NUM && c.last < NUM && !free[h] && !free[c.mid] && !free[c.last]
            && ChainsOk(free[h := true][c.mid := true][c.last := true], next[h := 0][c.mid := 0][c.last := 0],
                        more[h := false][c.mid := false][c.last := false], chains - {h},
                        home[h := NUM][c.mid := NUM][c.last := NUM])
  {
    var c := chains[h];
    assert ChainOk(next, more, home, h, c);
    var next', more' := next[h := 0][c.mid := 0][c.last := 0], more[h := false][c.mid := false][c.last := false];
    var home' := home[h := NUM][c.mid := NUM][c.last := NUM];
    forall g | g in chains - {h}
      ensures ChainOk(next', more', home', g, (chains - {h})[g])
    {
      assert ChainOk(next, more, home, g, chains[g]);
    }
    forall d | 0 <= d < NUM && home'[d] != NUM
      ensures home'[d] in chains - {h} && InChain(home'[d], (chains - {h})[home'[d]], d)
    {
      assert home[d] != NUM && home[d] in chains;
    }
  }

  // ---------- rings ----------

  /** The entries of the ring from index from up to index to, modulo 2^16, are queue. */
  ghost predicate RingOk(ring: seq<nat>, from: nat, to: nat, queue: seq<nat>) {
    && |ring| == NUM && from < IDXMOD && to < IDXMOD && |queue| <= NUM
    && to == (from + |queue|) % IDXMOD
    && forall k {:trigger queue[k]} :: 0 <= k < |queue| ==> ring[RingSlot(from, k)] == queue[k]
  }

  function RingSlot(from: nat, k: nat): nat { (from + k) % NUM }

  /** A new entry lands beside the unconsumed ones, also when the index wraps. */
  lemma RingPush(ring: seq<nat>, from: nat, to: nat, queue: seq<nat>, x: nat)
    requires RingOk(ring, from, to, queue) && |queue| < NUM
    ensures RingOk(ring[to % NUM := x], from, (to + 1) % IDXMOD, queue + [x])
  {
    WrapKeepsSlot(from + |queue|);
    forall k | 0 <= k < |queue|
      ensures RingSlot(from, k) != to % NUM
    {
      OtherSlot(from, k, |queue|);
    }
  }

  /** NUM divides 2^16. */
  lemma WrapKeepsSlot(x: nat)
    ensures x % IDXMOD % NUM == x % NUM
  {
    var r := x % IDXMOD;
    assert x == x / IDXMOD * IDXMOD + r;
    assert r == r / NUM * NUM + r % NUM;
    Remainder(x, x / IDXMOD * 8192 + r / NUM, r % NUM);
  }

  lemma Remainder(x: nat, q: nat, r: nat)
    requires x == q * NUM + r && r < NUM
    ensures x % NUM == r
  {
  }

  lemma OtherSlot(from: nat, k: nat, n: nat)
    requires k < n < NUM
    ensures (from + k) % NUM != (from + n) % NUM
  {
  }

  lemma RingPop(ring: seq<nat>, from: nat, to: nat, queue: seq<nat>)
    requires RingOk(ring, from, to, queue) && queue != []
    ensures ring[from % NUM] == queue[0] && from != to
    ensures RingOk(ring, (from + 1) % IDXMOD, to, queue[1..])
  {
    assert ring[RingSlot(from, 0)] == queue[0];
    var rest := queue[1..];
    forall k | 0 <= k < |rest|
      ensures ring[RingSlot((from + 1) % IDXMOD, k)] == rest[k]
    {
      var j := k + 1;
      assert ring[RingSlot(from, j)] == queue[j];
      WrapKeepsSlot(from + 1);
      SameSlot((from + 1) % IDXMOD, from + 1, k);
    }
  }

  lemma SameSlot(x: nat, y: nat, k: nat)
    requires x % NUM == y % NUM
    ensures (x + k) % NUM == (y + k) % NUM
  {
  }

  // ---------- how many ----------

  lemma {:induction false} SomeFree(free: seq<bool>)
    ensures Count(free) > 0 <==> exists i :: 0 <= i < |free| && free[i]
  {
    if free != [] {
      var n := |free| - 1;
      SomeFree(free[..n]);
      if Count(free[..n]) > 0 {
        var i :| 0 <= i < n && free[..n][i];
        assert free[i];
      }
      if i :| 0 <= i < |free| && free[i] {
        assert i < n ==> free[..n][i];
      }
    }
  }

  predicate Distinct(q: seq<nat>) {
    forall i, j :: 0 <= i < j < |q| ==> q[i] != q[j]
  }

  lemma {:induction false} DistinctFits(q: seq<nat>, s: set<nat>)
    requires Distinct(q) && forall x :: x in q ==> x in s
    ensures |q| <= |s|
  {
    if q != [] {
      var last := q[|q| - 1];
      var rest := q[..|q| - 1];
      assert last in q;
      forall x | x in rest
        ensures x in s - {last}
      {
        assert x in q;
      }
      DistinctFits(rest, s - {last});
    }
  }
}
