/** The free-block bitmap of fs.c: bit b of the map, in block bmapstart + b / BPB, says whether
    block b is in use. */
module Bitmap {
  import opened Blocks

  const BPB: nat := 8192    // bitmap bits per block

  /** x & (1 << k), as a truth value. */
  predicate Bit(x: nat, k: nat) {
    if k == 0 then x % 2 == 1 else Bit(x / 2, k - 1)
  }

  /** x with bit k set (x | m) or cleared (x & ~m), where m is 1 << k. */
  function PutBit(x: nat, k: nat, v: bool): (y: nat)
    ensures forall j: nat :: Bit(y, j) <==> if j == k then v else Bit(x, j)
  {
    if k == 0 then
      PutLowBit(x, v);
      x / 2 * 2 + if v then 1 else 0
    else
      var y := PutBit(x / 2, k - 1, v);
      PutHighBit(x, y, k, v);
      y * 2 + x % 2
  }

  lemma PutLowBit(x: nat, v: bool)
    ensures var y := x / 2 * 2 + if v then 1 else 0;
            forall j: nat :: Bit(y, j) <==> if j == 0 then v else Bit(x, j)
  {
    var y := x / 2 * 2 + if v then 1 else 0;
    assert y / 2 == x / 2 && (y % 2 == 1 <==> v);
    forall j: nat
      ensures Bit(y, j) <==> if j == 0 then v else Bit(x, j)
    {
      if j > 0 {
        assert Bit(y, j) == Bit(y / 2, j - 1) && Bit(x, j) == Bit(x / 2, j - 1);
      }
    }
  }

  lemma PutHighBit(x: nat, y: nat, k: nat, v: bool)
    requires k > 0 && forall j: nat :: Bit(y, j) <==> if j == k - 1 then v else Bit(x / 2, j)
    ensures forall j: nat :: Bit(y * 2 + x % 2, j) <==> if j == k then v else Bit(x, j)
  {
    assert (y * 2 + x % 2) / 2 == y && (y * 2 + x % 2) % 2 == x % 2;
    forall j: nat
      ensures Bit(y * 2 + x % 2, j) <==> if j == k then v else Bit(x, j)
    {
      if j > 0 {
        assert Bit(y * 2 + x % 2, j) == Bit(y, j - 1) && Bit(x, j) == Bit(x / 2, j - 1);
      }
    }
  }

  lemma {:induction false} PutBitFits(x: nat, k: nat, v: bool, n: nat)
    requires k < n && x < Power(n)
    ensures PutBit(x, k, v) < Power(n)
  {
    var p := Power(n - 1);
    assert Power(n) == 2 * p;
    Halved(x, p);
    if k > 0 {
      PutBitFits(x / 2, k - 1, v, n - 1);
      Doubled(PutBit(x / 2, k - 1, v), x % 2, p);
    } else {
      Doubled(x / 2, if v then 1 else 0, p);
    }
  }

  lemma Halved(x: nat, p: nat)
    requires x < 2 * p
    ensures x / 2 < p
  {
  }

  lemma Doubled(y: nat, bit: nat, p: nat)
    requires y < p && bit < 2
    ensures y * 2 + bit < 2 * p
  {
  }

  function Power(n: nat): nat { if n == 0 then 1 else 2 * Power(n - 1) }

  function PutBitInByte(x: byte, k: nat, v: bool): (y: byte)
    requires k < 8
    ensures forall j: nat :: Bit(y, j) <==> if j == k then v else Bit(x, j)
  {
    PutBitFits(x, k, v, 8);
    assert Power(8) == 256;
    PutBit(x, k, v)
  }

  // ---------- the map ----------

  /** Bit bi of a bitmap block. */
  predicate BitIn(b: Block, bi: nat)
    requires bi < BPB
  {
    Bit(b[bi / 8], bi % 8)
  }

  function PutBitIn(b: Block, bi: nat, v: bool): (r: Block)
    requires bi < BPB
    ensures forall bj: nat :: bj < BPB ==> (BitIn(r, bj) <==> if bj == bi then v else BitIn(b, bj))
  {
    b[bi / 8 := PutBitInByte(b[bi / 8], bi % 8, v)]
  }

  /** Block b is marked as in use, in the map that starts at block start. */
  predicate Used(disk: seq<Block>, start: nat, b: nat)
    requires start + b / BPB < |disk|
  {
    BitIn(disk[start + b / BPB], b % BPB)
  }

  function Mark(disk: seq<Block>, start: nat, b: nat, v: bool): (r: seq<Block>)
    requires start + b / BPB < |disk|
    ensures |r| == |disk|
    ensures forall c: nat {:trigger Used(r, start, c)} :: start + c / BPB < |disk| ==>
              (Used(r, start, c) <==> if c == b then v else Used(disk, start, c))
    ensures forall c: nat {:trigger r[c]} :: c < |disk| && c != start + b / BPB ==> r[c] == disk[c]
  {
    var blk := start + b / BPB;
    var r := disk[blk := PutBitIn(disk[blk], b % BPB, v)];
    MarkedElsewhere(disk, start, b, v);
    r
  }

  lemma MarkedElsewhere(disk: seq<Block>, start: nat, b: nat, v: bool)
    requires start + b / BPB < |disk|
    ensures var r := disk[start + b / BPB := PutBitIn(disk[start + b / BPB], b % BPB, v)];
            forall c: nat :: start + c / BPB < |disk| ==>
              (Used(r, start, c) <==> if c == b then v else Used(disk, start, c))
  {
    var r := disk[start + b / BPB := PutBitIn(disk[start + b / BPB], b % BPB, v)];
    forall c: nat | start + c / BPB < |disk|
      ensures Used(r, start, c) <==> if c == b then v else Used(disk, start, c)
    {
      if c / BPB == b / BPB {
        assert c == b <==> c % BPB == b % BPB;
      }
    }
  }
}
