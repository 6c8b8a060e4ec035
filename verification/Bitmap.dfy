/**
 The free-block bitmap (kernel/fs.c): bit b % 8 of byte (b % BPB) / 8 of bitmap
 block b / BPB says whether block b is in use.
 */
module Bitmap {
  import opened Blocks

  const BPB: nat := BSIZE * 8

  function Pow2(k: nat): nat {
    if k == 0 then 1 else 2 * Pow2(k - 1)
  }

  /** Bit k of x, the source's x & (1 << k). */
  predicate Bit(x: nat, k: nat) {
    if k == 0 then x % 2 == 1 else Bit(x / 2, k - 1)
  }

  /** Setting a clear bit adds its weight and changes no other bit. */
  lemma {:induction false} SetBit(x: nat, k: nat)
    requires !Bit(x, k)
    ensures forall j: nat :: Bit(x + Pow2(k), j) <==> j == k || Bit(x, j)
  {
    if k == 0 {
      assert (x + 1) / 2 == x / 2;
    } else {
      SetBit(x / 2, k - 1);
      assert (x + 2 * Pow2(k - 1)) / 2 == x / 2 + Pow2(k - 1);
      assert (x + 2 * Pow2(k - 1)) % 2 == x % 2;
    }
  }

  /** Clearing a set bit takes its weight away and changes no other bit. */
  lemma {:induction false} ClearBit(x: nat, k: nat)
    requires Bit(x, k)
    ensures Pow2(k) <= x
    ensures forall j: nat :: Bit(x - Pow2(k), j) <==> j != k && Bit(x, j)
  {
    if k == 0 {
      assert (x - 1) / 2 == x / 2;
    } else {
      ClearBit(x / 2, k - 1);
      assert (x - 2 * Pow2(k - 1)) / 2 == x / 2 - Pow2(k - 1);
      assert (x - 2 * Pow2(k - 1)) % 2 == x % 2;
    }
  }

  lemma {:induction false} BitRange(x: nat, k: nat, n: nat)
    requires x < Pow2(n)
    ensures k >= n ==> !Bit(x, k)
    ensures k < n && !Bit(x, k) ==> x + Pow2(k) < Pow2(n)
  {
    if n > 0 && k > 0 {
      BitRange(x / 2, k - 1, n - 1);
    } else if n == 0 && k > 0 {
      BitRange(0, k - 1, 0);
    }
  }

  /** One bitmap block says whether the block at offset bi in its range is in use. */
  predicate InUse(b: Block, bi: nat)
    requires bi < BPB
  {
    Bit(b[bi / 8], bi % 8)
  }

  /** The bitmap block with one bit changed. */
  ghost predicate Flipped(b: Block, bi: nat, used: bool, r: Block)
    requires bi < BPB
  {
    forall j: nat | j < BPB :: InUse(r, j) == if j == bi then used else InUse(b, j)
  }

  lemma MarkUsed(b: Block, bi: nat)
    requires bi < BPB && !InUse(b, bi)
    ensures b[bi / 8] + Pow2(bi % 8) < 256
    ensures Flipped(b, bi, true, b[bi / 8 := b[bi / 8] + Pow2(bi % 8)])
  {
    assert Pow2(8) == 256;
    BitRange(b[bi / 8], bi % 8, 8);
    SetBit(b[bi / 8], bi % 8);
  }

  lemma MarkFree(b: Block, bi: nat)
    requires bi < BPB && InUse(b, bi)
    ensures Pow2(bi % 8) <= b[bi / 8]
    ensures Flipped(b, bi, false, b[bi / 8 := b[bi / 8] - Pow2(bi % 8)])
  {
    ClearBit(b[bi / 8], bi % 8);
  }
}
