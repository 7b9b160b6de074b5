/** Disk blocks, and the little-endian 32-bit words that the kernel reads and
    writes in them through casts such as (struct logheader *) and (uint *). */
module Blocks {

  const BSIZE: nat := 1024
  const NWORDS: nat := 256

  type byte = x: int | 0 <= x < 256
  type u32 = x: int | 0 <= x < 0x1_0000_0000
  type Block = b: seq<byte> | |b| == BSIZE witness seq(BSIZE, i => 0)

  function ZeroBlock(): (b: Block)
    ensures forall i :: 0 <= i < BSIZE ==> b[i] == 0
  {
    seq(BSIZE, i => 0)
  }

  function Word(b: Block, i: nat): u32
    requires i < NWORDS
  {
    var b0: int, b1: int, b2: int, b3: int := b[4 * i], b[4 * i + 1], b[4 * i + 2], b[4 * i + 3];
    b0 + 0x100 * b1 + 0x1_0000 * b2 + 0x100_0000 * b3
  }

  lemma SplitWord(v: u32)
    ensures v == v % 0x100 + 0x100 * (v / 0x100 % 0x100) + 0x1_0000 * (v / 0x1_0000 % 0x100)
                 + 0x100_0000 * (v / 0x100_0000)
    ensures v / 0x100_0000 < 0x100
  {
    assert v / 0x100 / 0x100 == v / 0x1_0000;
    assert v / 0x1_0000 / 0x100 == v / 0x100_0000;
  }

  function PutWord(b: Block, i: nat, v: u32): (r: Block)
    requires i < NWORDS
    ensures Word(r, i) == v
    ensures forall j: nat :: j < NWORDS && j != i ==> Word(r, j) == Word(b, j)
    ensures forall k :: 0 <= k < BSIZE && !(4 * i <= k < 4 * i + 4) ==> r[k] == b[k]
  {
    SplitWord(v);
    b[4 * i := v % 0x100][4 * i + 1 := v / 0x100 % 0x100]
     [4 * i + 2 := v / 0x1_0000 % 0x100][4 * i + 3 := v / 0x100_0000]
  }

  lemma PutWordTwice(b: Block, i: nat, v: u32)
    requires i < NWORDS
    ensures PutWord(PutWord(b, i, v), i, v) == PutWord(b, i, v)
  {
    var r := PutWord(b, i, v);
    var s := PutWord(r, i, v);
    assert forall k :: 0 <= k < BSIZE && 4 * i <= k < 4 * i + 4 ==> s[k] == r[k];
    assert s == r;
  }

  lemma ZeroWords(i: nat)
    requires i < NWORDS
    ensures Word(ZeroBlock(), i) == 0
  {
  }
}
