/**
 Disk blocks as byte sequences, and the 32-bit little-endian words the kernel
 reads and writes inside them through `int *` and `uint *` casts (log header,
 indirect blocks).
 */
module Blocks {

  const BSIZE: nat := 1024
  const TWO32: nat := 0x1_0000_0000

  type Byte = x: int | 0 <= x < 256
  type Block = b: seq<Byte> | |b| == BSIZE witness seq(BSIZE, _ => 0)
  type Uint = x: int | 0 <= x < TWO32

  const WORDS: nat := 256  // words per block: BSIZE / sizeof(uint)

  function ZeroBlock(): Block {
    seq(BSIZE, _ => 0)
  }

  /** The i-th 32-bit word of a block. */
  function Word(b: Block, i: nat): (w: Uint)
    requires i < WORDS
  {
    var b0: int, b1: int, b2: int, b3: int := b[4 * i], b[4 * i + 1], b[4 * i + 2], b[4 * i + 3];
    b0 + 256 * b1 + 65536 * b2 + 16777216 * b3
  }

  /** The block after storing v in its i-th word. */
  function SetWord(b: Block, i: nat, v: Uint): (r: Block)
    requires i < WORDS
  {
    b[4 * i := v % 256][4 * i + 1 := v / 256 % 256][4 * i + 2 := v / 65536 % 256][4 * i + 3 := v / 16777216]
  }

  /** A stored word reads back as the value stored and disturbs no other word. */
  lemma SetWordReads(b: Block, i: nat, v: Uint)
    requires i < WORDS
    ensures Word(SetWord(b, i, v), i) == v
    ensures forall j: nat | j < WORDS && j != i :: Word(SetWord(b, i, v), j) == Word(b, j)
  {
    assert v == v % 256 + 256 * (v / 256);
    assert v / 256 == v / 256 % 256 + 256 * (v / 65536);
    assert v / 65536 == v / 65536 % 256 + 256 * (v / 16777216);
    var r := SetWord(b, i, v);
    forall j: nat | j < WORDS && j != i
      ensures Word(r, j) == Word(b, j)
    {
      assert 4 * j + 3 < 4 * i || 4 * i + 3 < 4 * j;
    }
  }

  /** Every word of a zeroed block is zero. */
  lemma ZeroBlockReads(i: nat)
    requires i < WORDS
    ensures Word(ZeroBlock(), i) == 0
  {
  }
}
