/**
 Which block belongs to whom (kernel/fs.c). Every block has exactly one owner,
 so the block numbers reachable from all inodes are pairwise distinct; the
 invariant says that the inodes, the indirect blocks, the bitmap and the owners
 agree.
 */
module Ownership {
  import opened Blocks
  import opened Bitmap

  const NDIRECT: nat := 12
  const NINDIRECT: nat := 256
  const MAXFILE: nat := NDIRECT + NINDIRECT

  /** Pending: marked in the bitmap, not (or no longer) reachable from an inode. */
  datatype Owner =
    | Free
    | Meta
    | Pending
    | Data(inum: nat, bn: nat)
    | Indirect(inum: nat)

  /** The part of an inode that locates content; addrs has NDIRECT + 1 entries. */
  datatype Inode = Inode(size: nat, addrs: seq<Uint>)

  type Inodes = m: map<nat, Inode> | forall i | i in m :: |m[i].addrs| == NDIRECT + 1

  type Owners = map<nat, Owner>

  /** Super block fields: total blocks, first bitmap block, first inode block. */
  datatype Super = Super(size: nat, bmapstart: nat, inodestart: nat)

  function Empty(): Inode {
    Inode(0, seq(NDIRECT + 1, _ => 0))
  }

  /** The number of the bn-th block of the file, 0 when it has none. */
  function Addr(blocks: seq<Block>, ip: Inode, bn: nat): nat
    requires |ip.addrs| == NDIRECT + 1 && bn < MAXFILE
  {
    if bn < NDIRECT then ip.addrs[bn]
    else if ip.addrs[NDIRECT] == 0 || ip.addrs[NDIRECT] >= |blocks| then 0
    else Word(blocks[ip.addrs[NDIRECT]], bn - NDIRECT)
  }

  // ---- the invariant ----

  /** Inodes and owners agree: every reachable block is owned by the place it is reached from, and
      every owned block is reached from there. */
  ghost predicate Owned(blocks: seq<Block>, inodes: Inodes, owner: Owners) {
    && (forall a: nat :: a in owner <==> a < |blocks|) && OwnedBy(owner, 0, Meta)
    && (forall i, bn | i in inodes && 0 <= bn < MAXFILE && Addr(blocks, inodes[i], bn) != 0 ::
          OwnedBy(owner, Addr(blocks, inodes[i], bn), Data(i, bn)))
    && (forall i | i in inodes && inodes[i].addrs[NDIRECT] != 0 ::
          OwnedBy(owner, inodes[i].addrs[NDIRECT], Indirect(i)))
    && (forall a | a in owner && owner[a].Data? ::
          && owner[a].inum in inodes && owner[a].bn < MAXFILE
          && Addr(blocks, inodes[owner[a].inum], owner[a].bn) == a)
    && (forall a | a in owner && owner[a].Indirect? ::
          owner[a].inum in inodes && inodes[owner[a].inum].addrs[NDIRECT] == a)
  }

  ghost predicate OwnedBy(owner: Owners, a: nat, o: Owner) {
    a in owner && owner[a] == o
  }

  /** The bitmap block that holds the bit of block a. */
  function BitmapBlock(sb: Super, a: nat): nat {
    sb.bmapstart + a / BPB
  }

  /** The bits of all blocks stand one after the other in the bitmap blocks. */
  lemma BitmapLayout(sb: Super, a: nat)
    ensures (BitmapBlock(sb, a) - sb.bmapstart) * BPB + a % BPB == a
  {
  }

  predicate Used(sb: Super, blocks: seq<Block>, a: nat)
    requires BitmapBlock(sb, a) < |blocks|
  {
    InUse(blocks[BitmapBlock(sb, a)], a % BPB)
  }

  /** The bitmap blocks are nobody's data, and a bit is set exactly for owned blocks. */
  ghost predicate Marked(sb: Super, blocks: seq<Block>, owner: Owners) {
    && sb.size == |blocks| < TWO32
    && (forall a: nat :: a in owner <==> a < |blocks|)
    && (forall a: nat {:trigger BitmapBlock(sb, a)} | a < |blocks| ::
          BitmapBlock(sb, a) < |blocks| && OwnedBy(owner, BitmapBlock(sb, a), Meta))
    && (forall a: nat {:trigger Used(sb, blocks, a)} | a < |blocks| ::
          Used(sb, blocks, a) <==> owner[a] != Free)
  }

  /** Every block the size covers is present. */
  ghost predicate NoHoles(blocks: seq<Block>, ip: Inode)
    requires |ip.addrs| == NDIRECT + 1
  {
    && ip.size <= MAXFILE * BSIZE
    && forall bn: nat | bn * BSIZE < ip.size && bn < MAXFILE :: Addr(blocks, ip, bn) != 0
  }

  ghost predicate Consistent(sb: Super, blocks: seq<Block>, inodes: Inodes, owner: Owners) {
    && Owned(blocks, inodes, owner) && Marked(sb, blocks, owner)
    && forall i | i in inodes :: NoHoles(blocks, inodes[i])
  }

  /** An image with empty inodes, in which the first nmeta blocks are the file system's own and just these
      are marked, is consistent. */
  lemma FreshImage(sb: Super, blocks: seq<Block>, inodes: Inodes, owner: Owners, nmeta: nat)
    requires 0 < nmeta <= |blocks| == sb.size < TWO32 && forall i | i in inodes :: inodes[i] == Empty()
    requires forall a: nat {:trigger BitmapBlock(sb, a)} | a < |blocks| :: BitmapBlock(sb, a) < nmeta
    requires forall a: nat {:trigger Used(sb, blocks, a)} | a < |blocks| :: Used(sb, blocks, a) <==> a < nmeta
    requires forall a: nat :: a in owner <==> a < |blocks|
    requires forall a | a in owner :: owner[a] == if a < nmeta then Meta else Free
    ensures Consistent(sb, blocks, inodes, owner)
  {
    assert forall i, bn: nat | i in inodes && bn < MAXFILE :: Addr(blocks, inodes[i], bn) == 0;
  }

  // ---- file content ----

  function ByteAt(blocks: seq<Block>, ip: Inode, k: nat): Byte
    requires |ip.addrs| == NDIRECT + 1 && k < MAXFILE * BSIZE
  {
    var a := Addr(blocks, ip, k / BSIZE);
    if a < |blocks| then blocks[a][k % BSIZE] else 0
  }

  /** The bytes of the file. */
  ghost function Content(blocks: seq<Block>, ip: Inode): (s: seq<Byte>)
    requires |ip.addrs| == NDIRECT + 1 && ip.size <= MAXFILE * BSIZE
    ensures |s| == ip.size
  {
    seq(ip.size, k requires 0 <= k < ip.size => ByteAt(blocks, ip, k))
  }

  /** The file is laid out and filled the same way in both disks. */
  ghost predicate SameFile(old_: seq<Block>, new_: seq<Block>, ip: Inode)
    requires |ip.addrs| == NDIRECT + 1
  {
    |old_| == |new_| &&
    forall bn: nat | bn < MAXFILE ::
      && Addr(new_, ip, bn) == Addr(old_, ip, bn)
      && (0 < Addr(old_, ip, bn) < |old_| ==> new_[Addr(old_, ip, bn)] == old_[Addr(old_, ip, bn)])
  }

  lemma SameFileSameContent(old_: seq<Block>, new_: seq<Block>, ip: Inode)
    requires |ip.addrs| == NDIRECT + 1 && SameFile(old_, new_, ip) && NoHoles(old_, ip)
    ensures NoHoles(new_, ip) && Content(new_, ip) == Content(old_, ip)
  {
    forall k: nat | k < ip.size
      ensures ByteAt(new_, ip, k) == ByteAt(old_, ip, k)
    {
      assert k / BSIZE * BSIZE <= k && k / BSIZE < MAXFILE;
    }
  }

  // ---- steps that keep the invariant ----

  /** Changing a block that is no file's data and no file's indirect block touches no file. */
  lemma ChangeOther(blocks: seq<Block>, inodes: Inodes, owner: Owners, a: nat, b: Block)
    requires Owned(blocks, inodes, owner) && a < |blocks| && !owner[a].Data? && !owner[a].Indirect?
    ensures Owned(blocks[a := b], inodes, owner)
    ensures forall i | i in inodes :: SameFile(blocks, blocks[a := b], inodes[i])
  {
    var after := blocks[a := b];
    forall i, bn: nat | i in inodes && bn < MAXFILE
      ensures Addr(after, inodes[i], bn) == Addr(blocks, inodes[i], bn)
      ensures Addr(blocks, inodes[i], bn) != 0 ==> Addr(blocks, inodes[i], bn) != a
    {
      assert inodes[i].addrs[NDIRECT] != a || a == 0;
    }
  }

  /** Filling one data block changes the blocks of no other file and no other block of this one. */
  lemma ChangeData(blocks: seq<Block>, inodes: Inodes, owner: Owners, a: nat, b: Block)
    requires Owned(blocks, inodes, owner) && a < |blocks| && owner[a].Data?
    ensures Owned(blocks[a := b], inodes, owner)
    ensures forall i | i in inodes && i != owner[a].inum :: SameFile(blocks, blocks[a := b], inodes[i])
    ensures forall i, bn: nat | i in inodes && bn < MAXFILE ::
              Addr(blocks[a := b], inodes[i], bn) == Addr(blocks, inodes[i], bn)
  {
    var after := blocks[a := b];
    forall i, bn: nat | i in inodes && bn < MAXFILE
      ensures Addr(after, inodes[i], bn) == Addr(blocks, inodes[i], bn)
      ensures Addr(blocks, inodes[i], bn) == a && a != 0 ==> owner[a] == Data(i, bn)
    {
      assert inodes[i].addrs[NDIRECT] != a || a == 0;
    }
  }

  /** Everything the file had is still there; it may have gained blocks. */
  ghost predicate Extends(old_: seq<Block>, ip: Inode, new_: seq<Block>, ip': Inode)
    requires |ip.addrs| == |ip'.addrs| == NDIRECT + 1
  {
    && |old_| == |new_| && ip'.size == ip.size
    && forall bn: nat | bn < MAXFILE && Addr(old_, ip, bn) != 0 ::
         && Addr(new_, ip', bn) == Addr(old_, ip, bn)
         && (Addr(old_, ip, bn) < |old_| ==> new_[Addr(old_, ip, bn)] == old_[Addr(old_, ip, bn)])
  }

  /** One bit of the bitmap changes, for a block that changes between Free and Pending. */
  lemma FlipBit(sb: Super, blocks: seq<Block>, inodes: Inodes, owner: Owners, a: nat, b: Block, o: Owner)
    requires Owned(blocks, inodes, owner) && Marked(sb, blocks, owner)
    requires a < |blocks| && owner[a] in {Free, Pending} && o in {Free, Pending}
    requires Flipped(blocks[BitmapBlock(sb, a)], a % BPB, o != Free, b)
    ensures Owned(blocks[BitmapBlock(sb, a) := b], inodes, owner[a := o])
    ensures Marked(sb, blocks[BitmapBlock(sb, a) := b], owner[a := o])
    ensures forall i | i in inodes :: SameFile(blocks, blocks[BitmapBlock(sb, a) := b], inodes[i])
  {
    var m := BitmapBlock(sb, a);
    ChangeOther(blocks, inodes, owner, m, b);
    forall c: nat {:trigger Used(sb, blocks[m := b], c)} | c < |blocks|
      ensures Used(sb, blocks[m := b], c) <==> owner[a := o][c] != Free
    {
      SameBit(a, c);
      assert BitmapBlock(sb, c) < |blocks|;
      assert Used(sb, blocks, c) <==> owner[c] != Free;
    }
  }

  lemma SameBit(a: nat, c: nat)
    ensures a / BPB == c / BPB && a % BPB == c % BPB <==> a == c
  {
  }

  /** Overwriting a block that is marked but not reachable. */
  lemma FillPending(sb: Super, blocks: seq<Block>, inodes: Inodes, owner: Owners, a: nat, b: Block)
    requires Owned(blocks, inodes, owner) && Marked(sb, blocks, owner)
    requires a < |blocks| && owner[a] == Pending
    ensures Owned(blocks[a := b], inodes, owner) && Marked(sb, blocks[a := b], owner)
    ensures forall i | i in inodes :: SameFile(blocks, blocks[a := b], inodes[i])
  {
    ChangeOther(blocks, inodes, owner, a, b);
    KeepMarked(sb, blocks, owner, a, b, Pending);
  }

  /** Neither contents nor ownership of a block outside the bitmap matters to the bitmap. */
  lemma KeepMarked(sb: Super, blocks: seq<Block>, owner: Owners, a: nat, b: Block, o: Owner)
    requires Marked(sb, blocks, owner) && a < |blocks| && owner[a] != Meta && owner[a] != Free && o != Free
    ensures Marked(sb, blocks[a := b], owner[a := o])
  {
    forall c: nat {:trigger Used(sb, blocks[a := b], c)} | c < |blocks|
      ensures Used(sb, blocks[a := b], c) <==> owner[a := o][c] != Free
    {
      assert OwnedBy(owner, BitmapBlock(sb, c), Meta);
      assert Used(sb, blocks, c) <==> owner[c] != Free;
    }
  }

  function SetAddr(inodes: Inodes, i: nat, slot: nat, a: Uint): Inodes
    requires i in inodes && slot <= NDIRECT
  {
    inodes[i := inodes[i].(addrs := inodes[i].addrs[slot := a])]
  }

  /** A marked, unreachable block becomes reachable from exactly one place, that had none before. */
  lemma Adopt(blocks: seq<Block>, inodes: Inodes, owner: Owners,
              blocks': seq<Block>, inodes': Inodes, a: nat, o: Owner)
    requires Owned(blocks, inodes, owner) && OwnedBy(owner, a, Pending) && |blocks'| == |blocks|
    requires o.Data? || o.Indirect?
    requires o.inum in inodes && inodes'.Keys == inodes.Keys
    requires if o.Data? then o.bn < MAXFILE && Addr(blocks, inodes[o.inum], o.bn) == 0
             else inodes[o.inum].addrs[NDIRECT] == 0
    requires forall j, c: nat | j in inodes' && c < MAXFILE ::
               Addr(blocks', inodes'[j], c) == if o == Data(j, c) then a else Addr(blocks, inodes[j], c)
    requires forall j | j in inodes' ::
               inodes'[j].addrs[NDIRECT] == if o == Indirect(j) then a else inodes[j].addrs[NDIRECT]
    ensures Owned(blocks', inodes', owner[a := o])
  {
  }

  /** bmap stores a new block in a direct slot. */
  lemma LinkDirect(blocks: seq<Block>, inodes: Inodes, owner: Owners, i: nat, bn: nat, a: Uint)
    requires Owned(blocks, inodes, owner) && OwnedBy(owner, a, Pending)
    requires i in inodes && bn < NDIRECT && inodes[i].addrs[bn] == 0
    ensures Owned(blocks, SetAddr(inodes, i, bn, a), owner[a := Data(i, bn)])
    ensures Extends(blocks, inodes[i], blocks, SetAddr(inodes, i, bn, a)[i])
  {
    Adopt(blocks, inodes, owner, blocks, SetAddr(inodes, i, bn, a), a, Data(i, bn));
  }

  /** bmap stores a new, zeroed block as the file's indirect block. */
  lemma LinkIndirect(blocks: seq<Block>, inodes: Inodes, owner: Owners, i: nat, a: Uint)
    requires Owned(blocks, inodes, owner) && OwnedBy(owner, a, Pending) && blocks[a] == ZeroBlock()
    requires i in inodes && inodes[i].addrs[NDIRECT] == 0
    ensures Owned(blocks, SetAddr(inodes, i, NDIRECT, a), owner[a := Indirect(i)])
    ensures Extends(blocks, inodes[i], blocks, SetAddr(inodes, i, NDIRECT, a)[i])
  {
    var after := SetAddr(inodes, i, NDIRECT, a);
    forall c: nat | c < MAXFILE
      ensures Addr(blocks, after[i], c) == Addr(blocks, inodes[i], c)
    {
      if NDIRECT <= c {
        ZeroBlockReads(c - NDIRECT);
      }
    }
    Adopt(blocks, inodes, owner, blocks, after, a, Indirect(i));
  }

  /** bmap stores a new block in an entry of the indirect block. */
  lemma LinkEntry(sb: Super, blocks: seq<Block>, inodes: Inodes, owner: Owners, i: nat, bn: nat, a: Uint)
    requires Owned(blocks, inodes, owner) && Marked(sb, blocks, owner) && OwnedBy(owner, a, Pending)
    requires i in inodes && NDIRECT <= bn < MAXFILE && inodes[i].addrs[NDIRECT] != 0
    requires Addr(blocks, inodes[i], bn) == 0
    ensures var ind := inodes[i].addrs[NDIRECT];
            && OwnedBy(owner, ind, Indirect(i))
            && var after := blocks[ind := SetWord(blocks[ind], bn - NDIRECT, a)];
               && Owned(after, inodes, owner[a := Data(i, bn)]) && Marked(sb, after, owner[a := Data(i, bn)])
               && Extends(blocks, inodes[i], after, inodes[i]) && Addr(after, inodes[i], bn) == a
               && forall j | j in inodes && j != i :: SameFile(blocks, after, inodes[j])
  {
    var ind := inodes[i].addrs[NDIRECT];
    var b := SetWord(blocks[ind], bn - NDIRECT, a);
    var after := blocks[ind := b];
    EntryAddrs(blocks, inodes, owner, i, bn, a);
    Adopt(blocks, inodes, owner, after, inodes, a, Data(i, bn));
    KeepMarked(sb, blocks, owner, ind, b, Indirect(i));
    KeepMarked(sb, after, owner[ind := Indirect(i)], a, after[a], Data(i, bn));
    assert owner[ind := Indirect(i)] == owner && after[a := after[a]] == after;
  }

  /** How the new entry changes what every file sees. */
  lemma EntryAddrs(blocks: seq<Block>, inodes: Inodes, owner: Owners, i: nat, bn: nat, a: Uint)
    requires Owned(blocks, inodes, owner) && OwnedBy(owner, a, Pending)
    requires i in inodes && NDIRECT <= bn < MAXFILE && OwnedBy(owner, inodes[i].addrs[NDIRECT], Indirect(i))
    requires inodes[i].addrs[NDIRECT] != 0
    ensures var ind := inodes[i].addrs[NDIRECT];
            var after := blocks[ind := SetWord(blocks[ind], bn - NDIRECT, a)];
            && (forall c: nat | c < MAXFILE ::
                  Addr(after, inodes[i], c) == if c == bn then a else Addr(blocks, inodes[i], c))
            && (forall j, c: nat | j in inodes && j != i && c < MAXFILE ::
                  Addr(after, inodes[j], c) == Addr(blocks, inodes[j], c))
            && (forall j, c: nat | j in inodes && c < MAXFILE ::
                  Addr(blocks, inodes[j], c) != 0 ==> Addr(blocks, inodes[j], c) != ind)
  {
    var ind := inodes[i].addrs[NDIRECT];
    SetWordReads(blocks[ind], bn - NDIRECT, a);
    forall j, c: nat | j in inodes && c < MAXFILE
      ensures Addr(blocks, inodes[j], c) != 0 ==> Addr(blocks, inodes[j], c) != ind
      ensures j != i ==> inodes[j].addrs[NDIRECT] != ind
    {
    }
  }

  /** The owners once inode i has let go of everything: its blocks wait to be freed. */
  function Detached(owner: Owners, i: nat, o: Owner): (r: Owners) {
    map a | a in owner :: if (owner[a].Data? || owner[a].Indirect?) && owner[a].inum == i then o else owner[a]
  }

  /** itrunc takes the file's blocks away from the inode before freeing them. */
  lemma Detach(sb: Super, blocks: seq<Block>, inodes: Inodes, owner: Owners, i: nat)
    requires Owned(blocks, inodes, owner) && Marked(sb, blocks, owner) && i in inodes
    ensures Owned(blocks, inodes[i := Empty()], Detached(owner, i, Pending))
    ensures Marked(sb, blocks, Detached(owner, i, Pending))
  {
    var after, left := inodes[i := Empty()], Detached(owner, i, Pending);
    assert forall c: nat | c < MAXFILE :: Addr(blocks, after[i], c) == 0;
    forall j, c: nat | j in after && c < MAXFILE && Addr(blocks, after[j], c) != 0
      ensures OwnedBy(left, Addr(blocks, after[j], c), Data(j, c))
    {
      assert after[j] == inodes[j] && OwnedBy(owner, Addr(blocks, inodes[j], c), Data(j, c));
    }
    forall j | j in after && after[j].addrs[NDIRECT] != 0
      ensures OwnedBy(left, after[j].addrs[NDIRECT], Indirect(j))
    {
      assert after[j] == inodes[j] && OwnedBy(owner, inodes[j].addrs[NDIRECT], Indirect(j));
    }
    assert OwnedBy(left, 0, Meta);
    forall a | a in left && left[a].Data?
      ensures left[a].inum in after && left[a].bn < MAXFILE && Addr(blocks, after[left[a].inum], left[a].bn) == a
    {
      assert left[a] == owner[a] && after[left[a].inum] == inodes[left[a].inum];
    }
    forall a | a in left && left[a].Indirect?
      ensures left[a].inum in after && after[left[a].inum].addrs[NDIRECT] == a
    {
      assert left[a] == owner[a] && after[left[a].inum] == inodes[left[a].inum];
    }
  }
}
