/**
 Block allocation and file content (kernel/fs.c): balloc, bfree, bmap, itrunc,
 readi and writei on the blocks the log presents to the file system. User
 copies succeed or fail as a whole; `copies` is how many of them succeed.
 */
module Fs {
  import opened Blocks
  import opened Bitmap
  import opened Ownership

  // ---- content as a flat byte sequence ----

  /** The old bytes with `data` written at `off`, extending the file if it runs past the end. */
  function Spliced(content: seq<Byte>, off: nat, data: seq<Byte>): (r: seq<Byte>)
    requires off <= |content|
  {
    content[..off] + data + if off + |data| < |content| then content[off + |data|..] else []
  }

  /** Reading a written range returns what was written; bytes outside it are the old ones. */
  lemma SplicedReads(content: seq<Byte>, off: nat, data: seq<Byte>)
    requires off <= |content|
    ensures var r := Spliced(content, off, data);
            && |r| == (if off + |data| > |content| then off + |data| else |content|)
            && r[off..off + |data|] == data
            && forall k: nat | k < |content| && !(off <= k < off + |data|) :: r[k] == content[k]
  {
    var r := Spliced(content, off, data);
    assert r[off..off + |data|] == data;
  }

  /** Two writes one after the other are one write of both pieces. */
  lemma SplicedTwice(content: seq<Byte>, off: nat, a: seq<Byte>, b: seq<Byte>)
    requires off <= |content|
    ensures off + |a| <= |Spliced(content, off, a)|
    ensures Spliced(Spliced(content, off, a), off + |a|, b) == Spliced(content, off, a + b)
  {
    var once := Spliced(content, off, a);
    var twice, both := Spliced(once, off + |a|, b), Spliced(content, off, a + b);
    assert |twice| == |both|;
    forall k | 0 <= k < |both|
      ensures twice[k] == both[k]
    {
    }
  }

  /** The file holds the old content with the first tot bytes of src written at off; the size in the
      inode may still be the old one. */
  ghost predicate Written(blocks: seq<Block>, ip: Inode, content: seq<Byte>, off: nat, src: seq<Byte>, tot: nat)
    requires |ip.addrs| == NDIRECT + 1
  {
    && off <= |content| <= MAXFILE * BSIZE && tot <= |src| && off + |src| <= MAXFILE * BSIZE
    && forall k: nat | k < |content| || k < off + tot ::
         && 0 < Addr(blocks, ip, k / BSIZE) < |blocks|
         && ByteAt(blocks, ip, k) == if off <= k < off + tot then src[k - off] else content[k]
  }

  lemma WrittenExtends(blocks: seq<Block>, ip: Inode, blocks': seq<Block>, ip': Inode,
                       content: seq<Byte>, off: nat, src: seq<Byte>, tot: nat)
    requires |ip.addrs| == |ip'.addrs| == NDIRECT + 1
    requires Written(blocks, ip, content, off, src, tot) && Extends(blocks, ip, blocks', ip')
    ensures Written(blocks', ip', content, off, src, tot)
  {
    forall k: nat | k < |content| || k < off + tot
      ensures 0 < Addr(blocks', ip', k / BSIZE) < |blocks'| && ByteAt(blocks', ip', k) == ByteAt(blocks, ip, k)
    {
      assert Addr(blocks, ip, k / BSIZE) != 0;
    }
  }

  /** The block after copying m bytes of src, from tot on, to offset `at` in it. */
  function Patched(b: Block, at: nat, src: seq<Byte>, tot: nat, m: nat): Block
    requires at + m <= BSIZE && tot + m <= |src|
  {
    b[..at] + src[tot..tot + m] + b[at + m..]
  }

  /** One turn of the writei loop writes the next m bytes, changes no other file and keeps the
      invariant. */
  lemma WriteStep(sb: Super, blocks: seq<Block>, inodes: Inodes, owner: Owners, i: nat,
                  content: seq<Byte>, off: nat, src: seq<Byte>, tot: nat, m: nat)
    requires Owned(blocks, inodes, owner) && Marked(sb, blocks, owner) && i in inodes
    requires Written(blocks, inodes[i], content, off, src, tot)
    requires tot + m <= |src| && 0 < m && (off + tot) % BSIZE + m <= BSIZE
    requires Addr(blocks, inodes[i], (off + tot) / BSIZE) != 0
    ensures var a := Addr(blocks, inodes[i], (off + tot) / BSIZE);
            && a < |blocks| && OwnedBy(owner, a, Data(i, (off + tot) / BSIZE))
            && var after := blocks[a := Patched(blocks[a], (off + tot) % BSIZE, src, tot, m)];
               && Written(after, inodes[i], content, off, src, tot + m)
               && Owned(after, inodes, owner) && Marked(sb, after, owner)
               && OthersSame(blocks, inodes, after, inodes, i)
  {
    var here := off + tot;
    var a := Addr(blocks, inodes[i], here / BSIZE);
    var b := Patched(blocks[a], here % BSIZE, src, tot, m);
    ChangeData(blocks, inodes, owner, a, b);
    KeepMarked(sb, blocks, owner, a, b, owner[a]);
    assert owner[a := owner[a]] == owner;
    WriteBytes(blocks, blocks[a := b], inodes[i], content, off, src, tot, m);
  }

  lemma WriteBytes(blocks: seq<Block>, after: seq<Block>, ip: Inode, content: seq<Byte>, off: nat, src: seq<Byte>,
                   tot: nat, m: nat)
    requires |ip.addrs| == NDIRECT + 1 && Written(blocks, ip, content, off, src, tot)
    requires tot + m <= |src| && 0 < m && (off + tot) % BSIZE + m <= BSIZE
    requires var a := Addr(blocks, ip, (off + tot) / BSIZE);
             && 0 < a < |blocks|
             && after == blocks[a := Patched(blocks[a], (off + tot) % BSIZE, src, tot, m)]
             && forall c: nat | c < MAXFILE && c != (off + tot) / BSIZE :: Addr(blocks, ip, c) != a
    requires forall c: nat | c < MAXFILE :: Addr(after, ip, c) == Addr(blocks, ip, c)
    ensures Written(after, ip, content, off, src, tot + m)
  {
    var here := off + tot;
    forall k: nat | k < |content| || k < off + tot + m
      ensures 0 < Addr(after, ip, k / BSIZE) < |after|
      ensures ByteAt(after, ip, k) == if off <= k < off + tot + m then src[k - off] else content[k]
    {
      assert k / BSIZE < MAXFILE;
      if here <= k < here + m {
        assert k / BSIZE == here / BSIZE && k % BSIZE == here % BSIZE + (k - here);
      } else if k / BSIZE == here / BSIZE {
        assert k % BSIZE < here % BSIZE || here % BSIZE + m <= k % BSIZE;
      }
    }
  }

  /** When the size is brought up to date the content is the spliced one. */
  lemma WrittenContent(blocks: seq<Block>, ip: Inode, content: seq<Byte>, off: nat, src: seq<Byte>, tot: nat)
    requires |ip.addrs| == NDIRECT + 1 && Written(blocks, ip, content, off, src, tot)
    requires ip.size == if off + tot > |content| then off + tot else |content|
    ensures NoHoles(blocks, ip) && Content(blocks, ip) == Spliced(content, off, src[..tot])
  {
    forall bn: nat | bn * BSIZE < ip.size && bn < MAXFILE
      ensures Addr(blocks, ip, bn) != 0
    {
      assert bn * BSIZE / BSIZE == bn;
      var k := bn * BSIZE;
      assert k < |content| || k < off + tot;
    }
    var c, s := Content(blocks, ip), Spliced(content, off, src[..tot]);
    forall k: nat | k < ip.size
      ensures c[k] == s[k]
    {
      assert c[k] == ByteAt(blocks, ip, k);
    }
  }

  lemma WrittenNothing(blocks: seq<Block>, inodes: Inodes, owner: Owners, i: nat, off: nat, src: seq<Byte>)
    requires Owned(blocks, inodes, owner) && i in inodes && NoHoles(blocks, inodes[i])
    requires off <= inodes[i].size && off + |src| <= MAXFILE * BSIZE
    ensures Written(blocks, inodes[i], Content(blocks, inodes[i]), off, src, 0)
  {
    forall k: nat | k < inodes[i].size
      ensures 0 < Addr(blocks, inodes[i], k / BSIZE) < |blocks|
    {
      assert k / BSIZE * BSIZE <= k && k / BSIZE < MAXFILE;
      assert OwnedBy(owner, Addr(blocks, inodes[i], k / BSIZE), Data(i, k / BSIZE));
    }
  }

  // ---- what a write costs the log ----

  /** How many blocks the n bytes at off lie in. */
  function Spanned(off: nat, n: nat): nat {
    if n == 0 then 0 else (off + n - 1) / BSIZE - off / BSIZE + 1
  }

  /** Of those, how many can be new: a block whose start the file already covers is not. */
  function Newable(off: nat, n: nat): nat {
    if off % BSIZE != 0 && n > 0 then Spanned(off, n) - 1 else Spanned(off, n)
  }

  /** Data blocks, a bitmap block for each new one and for a new indirect block, the indirect block
      and the inode. */
  function Cost(off: nat, n: nat): nat {
    Spanned(off, n) + (Newable(off, n) + 1) + 1 + 1
  }

  /** File i may have gained blocks; everything else about the files is as it was. */
  ghost predicate Grew(blocks: seq<Block>, inodes: Inodes, blocks': seq<Block>, inodes': Inodes, i: nat)
    requires i in inodes
  {
    && inodes'.Keys == inodes.Keys
    && Extends(blocks, inodes[i], blocks', inodes'[i])
    && forall j | j in inodes && j != i :: inodes'[j] == inodes[j] && SameFile(blocks, blocks', inodes[j])
  }

  /** No file but i is touched. */
  ghost predicate OthersSame(blocks: seq<Block>, inodes: Inodes, blocks': seq<Block>, inodes': Inodes, i: nat) {
    && inodes'.Keys == inodes.Keys
    && forall j | j in inodes && j != i :: inodes'[j] == inodes[j] && SameFile(blocks, blocks', inodes[j])
  }

  lemma OthersTransitive(b0: seq<Block>, n0: Inodes, b1: seq<Block>, n1: Inodes, b2: seq<Block>, n2: Inodes, i: nat)
    requires OthersSame(b0, n0, b1, n1, i) && OthersSame(b1, n1, b2, n2, i)
    ensures OthersSame(b0, n0, b2, n2, i)
  {
  }

  lemma GrewTransitive(b0: seq<Block>, n0: Inodes, b1: seq<Block>, n1: Inodes, b2: seq<Block>, n2: Inodes, i: nat)
    requires i in n0 && Grew(b0, n0, b1, n1, i) && Grew(b1, n1, b2, n2, i)
    ensures Grew(b0, n0, b2, n2, i)
  {
  }

  /** The block number as a set, when it is one. */
  function Only(a: nat): set<nat> {
    if a == 0 then {} else {a}
  }

  /** The bitmap blocks. */
  function Maps(sb: Super): set<nat> {
    set a: nat | a < sb.size :: BitmapBlock(sb, a)
  }

  lemma InMaps(sb: Super, a: nat)
    requires a < sb.size
    ensures BitmapBlock(sb, a) in Maps(sb)
  {
  }

  /** A disk of at most BPB blocks has one. */
  lemma OneMap(sb: Super)
    requires sb.size <= BPB
    ensures |Maps(sb)| <= 1
  {
    if sb.size == 0 {
      assert Maps(sb) == {};
    } else {
      forall a: nat | a < sb.size
        ensures BitmapBlock(sb, a) == sb.bmapstart
      {
      }
      assert BitmapBlock(sb, 0) in Maps(sb);
      assert Maps(sb) == {sb.bmapstart};
    }
  }

  lemma SetMinus(a: set<nat>, bits: set<nat>, x: nat, maps: set<nat>)
    requires bits <= maps
    ensures |(a + (bits + Only(x))) - maps| <= |a - maps| + 1
  {
    var more := (a + (bits + Only(x))) - maps;
    assert more <= (a - maps) + Only(x);
    SmallerSet(more, (a - maps) + Only(x));
  }

  lemma SmallerSet(a: set<nat>, b: set<nat>)
    requires a <= b
    ensures |a| <= |b|
  {
    assert b == a + (b - a);
  }

  const IPB: nat := 16  // inodes per block

  function InodeBlock(sb: Super, i: nat): nat {
    i / IPB + sb.inodestart
  }

  /** The inodes stand one after the other in the inode blocks. */
  lemma InodeLayout(sb: Super, i: nat)
    ensures (InodeBlock(sb, i) - sb.inodestart) * IPB + i % IPB == i
  {
  }

  /** The write that goes on at off + tot starts a new block, unless it is the first. */
  lemma SpannedGrows(off: nat, tot: nat, m: nat)
    requires tot == 0 || (off + tot) % BSIZE == 0
    requires 0 < m && (off + tot) % BSIZE + m <= BSIZE
    ensures Spanned(off, tot + m) == Spanned(off, tot) + 1
    ensures Newable(off, tot + m) == Newable(off, tot) + if tot == 0 && off % BSIZE != 0 then 0 else 1
    ensures (off + tot) % BSIZE + m == BSIZE ==> (off + (tot + m)) % BSIZE == 0
  {
  }

  /** Adding up what successive calls logged, when the indirect block is fixed once it exists. */
  lemma LogGrows(l0: set<nat>, l1: set<nat>, l2: set<nat>, s1: set<nat>, s2: set<nat>, i1: nat, i2: nat)
    requires l1 <= l0 + s1 + Only(i1) && l2 <= l1 + s2 + Only(i2) && (i1 == 0 || i1 == i2)
    ensures l2 <= l0 + (s1 + s2) + Only(i2) && |s1 + s2| <= |s1| + |s2|
  {
  }

  lemma SpannedMonotone(off: nat, tot: nat, n: nat)
    requires tot <= n
    ensures Spanned(off, tot) <= Spanned(off, n) && Newable(off, tot) <= Newable(off, n)
  {
  }

  /** How far one turn of readi or writei goes: to the end of the block or of the request. */
  function ChunkSize(left: nat, at: nat): (m: nat)
    requires 0 < left && at < BSIZE
    ensures 0 < m <= left && at + m <= BSIZE && (m == left || at + m == BSIZE)
  {
    if left < BSIZE - at then left else BSIZE - at
  }

  /** A block that starts before the end of the file is there; so is the block an unaligned write
      starts in. */
  lemma CoveredBlock(blocks: seq<Block>, ip: Inode, off: nat)
    requires |ip.addrs| == NDIRECT + 1 && NoHoles(blocks, ip) && off <= ip.size && off % BSIZE != 0
    ensures off / BSIZE < MAXFILE && Addr(blocks, ip, off / BSIZE) != 0
  {
    assert off / BSIZE * BSIZE < off;
  }

  // ---- states and what each routine does to them ----

  /** The file system as the routines below see it; `logged` is what they handed to log_write. */
  datatype State = State(blocks: seq<Block>, inodes: Inodes, owner: Owners, logged: set<nat>)

  /** Inodes, indirect blocks and bitmap agree on who owns what; holds inside operations too. */
  ghost predicate Sound(sb: Super, s: State) {
    Owned(s.blocks, s.inodes, s.owner) && Marked(sb, s.blocks, s.owner)
  }

  ghost predicate NoPending(owner: Owners) {
    forall a | a in owner :: owner[a] != Pending
  }

  /** Between operations: no holes, and no block in limbo. */
  ghost predicate Settled(sb: Super, s: State) {
    Consistent(sb, s.blocks, s.inodes, s.owner) && NoPending(s.owner)
  }

  ghost predicate Full(owner: Owners) {
    forall a | a in owner :: owner[a] != Free
  }

  function IndirectOf(s: State, i: nat): nat
    requires i in s.inodes
  {
    s.inodes[i].addrs[NDIRECT]
  }

  /** 1 while the file has no indirect block. */
  function Lacking(s: State, i: nat): nat
    requires i in s.inodes
  {
    if IndirectOf(s, i) == 0 then 1 else 0
  }

  ghost predicate FirstFree(owner: Owners, a: nat) {
    OwnedBy(owner, a, Free) && forall c: nat | c < a :: c in owner && owner[c] != Free
  }

  ghost predicate AllSame(old_: seq<Block>, new_: seq<Block>, inodes: Inodes) {
    forall i | i in inodes :: SameFile(old_, new_, inodes[i])
  }

  /** Every block that changed was handed to log_write, and the file system's own blocks stay its own and as
      they were, the bitmap excepted. */
  ghost predicate Recorded(sb: Super, s0: State, s1: State) {
    && |s1.blocks| == |s0.blocks| && s0.logged <= s1.logged
    && (forall a: nat | a < |s0.blocks| && s1.blocks[a] != s0.blocks[a] :: a in s1.logged)
    && (forall a: nat | a < |s0.blocks| && OwnedBy(s0.owner, a, Meta) ::
          OwnedBy(s1.owner, a, Meta) && (a !in Maps(sb) ==> s1.blocks[a] == s0.blocks[a]))
  }

  lemma RecordedNothing(sb: Super, s: State)
    ensures Recorded(sb, s, s)
  {
  }

  lemma RecordedTransitive(sb: Super, s0: State, s1: State, s2: State)
    requires Recorded(sb, s0, s1) && Recorded(sb, s1, s2)
    ensures Recorded(sb, s0, s2)
  {
  }

  /** balloc: the first free block is marked and zeroed, or the disk is full. */
  ghost predicate Allocated(sb: Super, s0: State, s1: State, a: nat) {
    && Sound(sb, s1) && s1.inodes == s0.inodes && |s1.blocks| == |s0.blocks|
    && AllSame(s0.blocks, s1.blocks, s0.inodes)
    && (a == 0 ==> s1 == s0 && Full(s0.owner))
    && (a != 0 ==>
          && a < |s1.blocks| && FirstFree(s0.owner, a)
          && s1.owner == s0.owner[a := Pending] && s1.blocks[a] == ZeroBlock()
          && s1.logged == s0.logged + {BitmapBlock(sb, a), a})
  }

  /** bfree: the bit of block a is cleared, and no file notices. */
  ghost predicate Released(sb: Super, s0: State, s1: State, a: nat) {
    && Sound(sb, s1) && s1.inodes == s0.inodes && |s1.blocks| == |s0.blocks|
    && s1.owner == s0.owner[a := Free] && AllSame(s0.blocks, s1.blocks, s0.inodes)
    && (forall c: nat | c < |s0.blocks| && !OwnedBy(s0.owner, c, Meta) :: s1.blocks[c] == s0.blocks[c])
    && Recorded(sb, s0, s1) && s1.logged == s0.logged + {BitmapBlock(sb, a)}
  }

  /** bmap: block bn of file i is at addr, found or allocated, or addr is 0 and the disk is full. At
      most one bitmap block is logged for each block allocated; `bits` are those. */
  ghost predicate Mapped(sb: Super, s0: State, s1: State, i: nat, bn: nat, addr: nat, bits: set<nat>)
    requires i in s0.inodes && bn < MAXFILE
  {
    && Sound(sb, s1) && NoPending(s1.owner) && Grew(s0.blocks, s0.inodes, s1.blocks, s1.inodes, i)
    && addr == Addr(s1.blocks, s1.inodes[i], bn)
    && (addr == 0 ==> Full(s1.owner))
    && (Addr(s0.blocks, s0.inodes[i], bn) != 0 ==> s1 == s0 && bits == {})
    && s1.logged <= s0.logged + bits + Only(addr) + Only(IndirectOf(s1, i))
    && |bits| + Lacking(s1, i) <= Lacking(s0, i) + (if Addr(s0.blocks, s0.inodes[i], bn) == 0 then 1 else 0)
    && (Lacking(s0, i) == 0 ==> IndirectOf(s1, i) == IndirectOf(s0, i)) && bits <= Maps(sb)
  }

  /** A block that is there is found without changing anything. */
  lemma MappedAlready(sb: Super, s: State, i: nat, bn: nat)
    requires Sound(sb, s) && NoPending(s.owner) && i in s.inodes && bn < MAXFILE && Addr(s.blocks, s.inodes[i], bn) != 0
    ensures Mapped(sb, s, s, i, bn, Addr(s.blocks, s.inodes[i], bn), {})
  {
  }

  /** Block a becomes the direct block in the given slot, or the indirect block. */
  function WithAddr(s: State, i: nat, slot: nat, a: Uint): State
    requires i in s.inodes && slot <= NDIRECT
  {
    State(s.blocks, SetAddr(s.inodes, i, slot, a),
          s.owner[a := if slot < NDIRECT then Data(i, slot) else Indirect(i)], s.logged)
  }

  lemma MappedDirect(sb: Super, s0: State, s1: State, i: nat, bn: nat, a: Uint)
    requires i in s0.inodes && bn < NDIRECT && s0.inodes[i].addrs[bn] == 0 && NoPending(s0.owner)
    requires Allocated(sb, s0, s1, a)
    ensures a == 0 ==> Mapped(sb, s0, s1, i, bn, a, {})
    ensures a != 0 ==> Mapped(sb, s0, WithAddr(s1, i, bn, a), i, bn, a, {BitmapBlock(sb, a)})
  {
    if a != 0 {
      InMaps(sb, a);
      LinkDirect(s1.blocks, s1.inodes, s1.owner, i, bn, a);
      KeepMarked(sb, s1.blocks, s1.owner, a, s1.blocks[a], Data(i, bn));
      assert s1.blocks[a := s1.blocks[a]] == s1.blocks;
      GrewTransitive(s0.blocks, s0.inodes, s1.blocks, s1.inodes, s1.blocks, SetAddr(s1.inodes, i, bn, a), i);
    }
  }

  /** The block that was allocated was free, so handing it to a file touches nothing of the file system's. */
  lemma LinkRecorded(sb: Super, s0: State, s1: State, i: nat, slot: nat, a: Uint)
    requires i in s0.inodes && slot <= NDIRECT && a != 0 && Allocated(sb, s0, s1, a) && Recorded(sb, s0, s1)
    ensures i in s1.inodes && Recorded(sb, s0, WithAddr(s1, i, slot, a))
  {
    hide Sound, AllSame, Maps;
  }

  /** The indirect block of file i is present, or the disk is full. */
  ghost predicate Loaded(sb: Super, s0: State, s1: State, i: nat, ind: nat, bits: set<nat>)
    requires i in s0.inodes
  {
    && Sound(sb, s1) && NoPending(s1.owner) && Grew(s0.blocks, s0.inodes, s1.blocks, s1.inodes, i)
    && ind == IndirectOf(s1, i) && (ind == 0 ==> Full(s1.owner))
    && (forall bn: nat | bn < MAXFILE :: Addr(s1.blocks, s1.inodes[i], bn) == Addr(s0.blocks, s0.inodes[i], bn))
    && (IndirectOf(s0, i) != 0 ==> s1 == s0 && bits == {})
    && s1.logged <= s0.logged + bits + Only(ind) && |bits| + Lacking(s1, i) <= Lacking(s0, i) && bits <= Maps(sb)
  }

  lemma LoadedIndirect(sb: Super, s0: State, s1: State, i: nat, a: Uint)
    requires i in s0.inodes && IndirectOf(s0, i) == 0 && NoPending(s0.owner)
    requires Allocated(sb, s0, s1, a)
    ensures a == 0 ==> Loaded(sb, s0, s1, i, a, {})
    ensures a != 0 ==> Loaded(sb, s0, WithAddr(s1, i, NDIRECT, a), i, a, {BitmapBlock(sb, a)})
  {
    if a != 0 {
      InMaps(sb, a);
      LinkIndirect(s1.blocks, s1.inodes, s1.owner, i, a);
      KeepMarked(sb, s1.blocks, s1.owner, a, s1.blocks[a], Indirect(i));
      assert s1.blocks[a := s1.blocks[a]] == s1.blocks;
      GrewTransitive(s0.blocks, s0.inodes, s1.blocks, s1.inodes, s1.blocks, SetAddr(s1.inodes, i, NDIRECT, a), i);
    }
  }

  lemma LoadedAlready(sb: Super, s: State, i: nat)
    requires Sound(sb, s) && NoPending(s.owner) && i in s.inodes && IndirectOf(s, i) != 0
    ensures Loaded(sb, s, s, i, IndirectOf(s, i), {})
    ensures IndirectOf(s, i) < |s.blocks|
  {
    assert OwnedBy(s.owner, IndirectOf(s, i), Indirect(i));
  }

  /** Block a is entered in the indirect block of file i. */
  function WithEntry(s: State, i: nat, bn: nat, a: Uint): State
    requires i in s.inodes && NDIRECT <= bn < MAXFILE && IndirectOf(s, i) < |s.blocks|
  {
    State(s.blocks[IndirectOf(s, i) := SetWord(s.blocks[IndirectOf(s, i)], bn - NDIRECT, a)],
          s.inodes, s.owner[a := Data(i, bn)], s.logged + {IndirectOf(s, i)})
  }

  lemma MappedEntry(sb: Super, s0: State, s1: State, i: nat, bn: nat, a: Uint)
    requires i in s0.inodes && NDIRECT <= bn < MAXFILE && IndirectOf(s0, i) != 0 && NoPending(s0.owner)
    requires Addr(s0.blocks, s0.inodes[i], bn) == 0
    requires Allocated(sb, s0, s1, a)
    ensures a == 0 ==> Mapped(sb, s0, s1, i, bn, a, {})
    ensures a != 0 ==>
              && IndirectOf(s1, i) < |s1.blocks|
              && Mapped(sb, s0, WithEntry(s1, i, bn, a), i, bn, a, {BitmapBlock(sb, a)})
  {
    if a != 0 {
      var ind := IndirectOf(s1, i);
      InMaps(sb, a);
      LinkEntry(sb, s1.blocks, s1.inodes, s1.owner, i, bn, a);
      GrewTransitive(s0.blocks, s0.inodes, s1.blocks, s1.inodes,
                     s1.blocks[ind := SetWord(s1.blocks[ind], bn - NDIRECT, a)], s1.inodes, i);
    }
  }

  lemma EntryRecorded(sb: Super, s0: State, s1: State, i: nat, bn: nat, a: Uint)
    requires i in s0.inodes && NDIRECT <= bn < MAXFILE && IndirectOf(s0, i) != 0 && a != 0
    requires Sound(sb, s0) && Allocated(sb, s0, s1, a) && Recorded(sb, s0, s1) && IndirectOf(s1, i) < |s1.blocks|
    ensures Recorded(sb, s0, WithEntry(s1, i, bn, a))
  {
    hide AllSame, Maps, Marked, SetWord;
    assert OwnedBy(s0.owner, IndirectOf(s0, i), Indirect(i));
  }

  /** The block that was mapped is the file's. */
  lemma MappedIsData(sb: Super, s0: State, s1: State, i: nat, bn: nat, addr: nat, bits: set<nat>)
    requires i in s0.inodes && bn < MAXFILE && Mapped(sb, s0, s1, i, bn, addr, bits) && addr != 0
    ensures OwnedBy(s1.owner, addr, Data(i, bn))
  {
    hide Maps, Marked;
  }

  lemma MappedAfterLoad(sb: Super, s0: State, s1: State, s2: State, i: nat, bn: nat, ind: nat, a: nat,
                        b1: set<nat>, b2: set<nat>)
    requires i in s0.inodes && NDIRECT <= bn < MAXFILE && Loaded(sb, s0, s1, i, ind, b1)
    requires if ind == 0 then s2 == s1 && a == 0 && b2 == {} else Mapped(sb, s1, s2, i, bn, a, b2)
    ensures Mapped(sb, s0, s2, i, bn, a, b1 + b2)
  {
    hide Maps, Sound, NoPending, Full, Grew;
    if ind != 0 {
      GrewTransitive(s0.blocks, s0.inodes, s1.blocks, s1.inodes, s2.blocks, s2.inodes, i);
      LogGrows(s0.logged, s1.logged, s2.logged, b1, b2 + Only(a), ind, IndirectOf(s2, i));
      assert b1 + (b2 + Only(a)) == b1 + b2 + Only(a);
    }
  }

  // ---- writei, turn by turn ----

  /** One call of writei: the state it starts from, the file, where to write and what. */
  datatype Job = Job(start: State, i: nat, off: nat, src: seq<Byte>)

  ghost predicate InRange(sb: Super, job: Job) {
    && Settled(sb, job.start) && job.i in job.start.inodes
    && job.off <= job.start.inodes[job.i].size <= MAXFILE * BSIZE
    && job.off + |job.src| <= MAXFILE * BSIZE
  }

  /** The tests at the top of writei, with their 32-bit sum. */
  predicate Refused(size: nat, off: nat, n: nat) {
    off > size || (off + n) % TWO32 < off || (off + n) % TWO32 > MAXFILE * BSIZE
  }

  predicate OutOfRange(size: nat, off: nat, n: nat) {
    size < off || off + n > MAXFILE * BSIZE
  }

  /** The tests refuse exactly the bad ranges. */
  lemma RangeCheck(sb: Super, job: Job)
    requires Settled(sb, job.start) && job.i in job.start.inodes && job.off < TWO32 && |job.src| < TWO32
    ensures Refused(job.start.inodes[job.i].size, job.off, |job.src|)
            <==> OutOfRange(job.start.inodes[job.i].size, job.off, |job.src|)
    ensures !OutOfRange(job.start.inodes[job.i].size, job.off, |job.src|) ==> InRange(sb, job)
  {
    assert NoHoles(job.start.blocks, job.start.inodes[job.i]);
  }

  ghost function Before(job: Job): seq<Byte>
    requires job.i in job.start.inodes && job.start.inodes[job.i].size <= MAXFILE * BSIZE
  {
    Content(job.start.blocks, job.start.inodes[job.i])
  }

  /** The first tot bytes are written and other files are as they were. */
  ghost predicate PartlyWritten(sb: Super, job: Job, s: State, tot: nat) {
    && InRange(sb, job) && tot <= |job.src|
    && Sound(sb, s) && NoPending(s.owner)
    && OthersSame(job.start.blocks, job.start.inodes, s.blocks, s.inodes, job.i)
    && s.inodes[job.i].size == job.start.inodes[job.i].size
    && Written(s.blocks, s.inodes[job.i], Before(job), job.off, job.src, tot)
  }

  /** Between turns of the writei loop: the blocks logged so far, `spent` and the indirect block, are
      within what tot bytes may cost. */
  ghost predicate Writing(sb: Super, job: Job, s: State, tot: nat, spent: set<nat>) {
    && PartlyWritten(sb, job, s, tot)
    && (tot == 0 && job.off % BSIZE != 0 ==> Addr(s.blocks, s.inodes[job.i], job.off / BSIZE) != 0)
    && s.logged <= job.start.logged + spent + Only(IndirectOf(s, job.i))
    && |spent| + Lacking(s, job.i) <= Spanned(job.off, tot) + Newable(job.off, tot) + 1
    && |spent - Maps(sb)| <= Spanned(job.off, tot)
  }

  /** The writei loop is over. */
  ghost predicate Wrote(sb: Super, job: Job, s: State, tot: nat, spent: set<nat>) {
    && PartlyWritten(sb, job, s, tot)
    && s.logged <= job.start.logged + spent + Only(IndirectOf(s, job.i))
    && |spent| <= Spanned(job.off, |job.src|) + Newable(job.off, |job.src|) + 1
    && |spent - Maps(sb)| <= Spanned(job.off, |job.src|)
  }

  /** After `turns` turns the loop has done tot of n bytes and stands at a block boundary, or at the
      start or the end. */
  predicate InStep(off: nat, n: nat, tot: nat, turns: nat, copies: nat) {
    && tot <= n && turns == Spanned(off, tot) && turns <= copies
    && (tot == 0 || tot == n || (off + tot) % BSIZE == 0)
  }

  /** How far the next turn gets. */
  function NextStop(off: nat, n: nat, tot: nat): nat
    requires tot < n
  {
    tot + ChunkSize(n - tot, (off + tot) % BSIZE)
  }

  lemma NextTurn(off: nat, n: nat, tot: nat, turns: nat, copies: nat)
    requires InStep(off, n, tot, turns, copies) && tot < n
    ensures turns < Spanned(off, n) && tot < NextStop(off, n, tot) <= n
    ensures turns < copies ==> InStep(off, n, NextStop(off, n, tot), turns + 1, copies)
  {
    var m := ChunkSize(n - tot, (off + tot) % BSIZE);
    SpannedGrows(off, tot, m);
    SpannedMonotone(off, tot + m, n);
  }

  lemma StartWriting(sb: Super, job: Job, copies: nat)
    requires InRange(sb, job)
    ensures Writing(sb, job, job.start, 0, {}) && InStep(job.off, |job.src|, 0, 0, copies)
  {
    WrittenNothing(job.start.blocks, job.start.inodes, job.start.owner, job.i, job.off, job.src);
    if job.off % BSIZE != 0 {
      CoveredBlock(job.start.blocks, job.start.inodes[job.i], job.off);
    }
  }

  lemma StopWriting(sb: Super, job: Job, s: State, spent: set<nat>)
    requires Writing(sb, job, s, |job.src|, spent)
    ensures Wrote(sb, job, s, |job.src|, spent)
  {
  }

  /** What the next turn needs to know. */
  lemma WritingFacts(sb: Super, job: Job, s: State, tot: nat, spent: set<nat>)
    requires Writing(sb, job, s, tot, spent) && tot < |job.src|
    ensures Sound(sb, s) && NoPending(s.owner) && job.i in s.inodes
    ensures (job.off + tot) / BSIZE < MAXFILE
  {
  }

  /** Mapping the next block does not change what has been written; it may be the last thing done. */
  lemma TurnMapped(sb: Super, job: Job, s1: State, s2: State, tot: nat, turns: nat, copies: nat,
                   addr: nat, spent: set<nat>, bits: set<nat>)
    requires Writing(sb, job, s1, tot, spent) && tot < |job.src|
    requires job.i in s1.inodes && (job.off + tot) / BSIZE < MAXFILE
    requires Mapped(sb, s1, s2, job.i, (job.off + tot) / BSIZE, addr, bits)
    requires InStep(job.off, |job.src|, tot, turns, copies)
    ensures Wrote(sb, job, s2, tot, spent + (bits + Only(addr))) && (addr == 0 ==> Full(s2.owner))
    ensures |spent + (bits + Only(addr))| + Lacking(s2, job.i)
            <= Spanned(job.off, tot) + Newable(job.off, tot) + 2 + (if tot == 0 && job.off % BSIZE != 0 then 0 else 1)
    ensures |(spent + (bits + Only(addr))) - Maps(sb)| <= Spanned(job.off, tot) + 1
  {
    hide PartlyWritten, Sound, NoPending, Full, Grew, Maps, Spanned, Newable, InStep;
    TurnKeepsWritten(sb, job, s1, s2, tot, addr, bits);
    LogGrows(job.start.logged, s1.logged, s2.logged, spent, bits + Only(addr), IndirectOf(s1, job.i),
             IndirectOf(s2, job.i));
    TurnBudget(job.off, |job.src|, tot, turns, copies);
    SetMinus(spent, bits, addr, Maps(sb));
  }

  lemma TurnKeepsWritten(sb: Super, job: Job, s1: State, s2: State, tot: nat, addr: nat, bits: set<nat>)
    requires PartlyWritten(sb, job, s1, tot) && tot < |job.src|
    requires job.i in s1.inodes && (job.off + tot) / BSIZE < MAXFILE
    requires Mapped(sb, s1, s2, job.i, (job.off + tot) / BSIZE, addr, bits)
    ensures PartlyWritten(sb, job, s2, tot) && job.i in s2.inodes
  {
    hide Owned, Marked, Settled, NoPending, Full, Written, Content, Maps;
    WrittenExtends(s1.blocks, s1.inodes[job.i], s2.blocks, s2.inodes[job.i], Before(job), job.off, job.src, tot);
    OthersTransitive(job.start.blocks, job.start.inodes, s1.blocks, s1.inodes, s2.blocks, s2.inodes, job.i);
  }

  lemma TurnBudget(off: nat, n: nat, tot: nat, turns: nat, copies: nat)
    requires InStep(off, n, tot, turns, copies) && tot < n
    ensures Spanned(off, tot) + 1 <= Spanned(off, n)
    ensures Newable(off, tot) + (if tot == 0 && off % BSIZE != 0 then 0 else 1) <= Newable(off, n)
  {
    SpannedGrows(off, tot, 1);
    SpannedMonotone(off, tot + 1, n);
  }

  /** The copy of one turn, in block a, which is then logged. */
  function Stored(s: State, a: nat, off: nat, src: seq<Byte>, tot: nat): State
    requires a < |s.blocks| && tot < |src|
  {
    State(s.blocks[a := Patched(s.blocks[a], (off + tot) % BSIZE, src, tot,
                                ChunkSize(|src| - tot, (off + tot) % BSIZE))],
          s.inodes, s.owner, s.logged + {a})
  }

  /** A whole turn. */
  lemma TurnWritten(sb: Super, job: Job, s1: State, s2: State, tot: nat, turns: nat, copies: nat,
                    addr: nat, spent: set<nat>, bits: set<nat>)
    requires Writing(sb, job, s1, tot, spent) && tot < |job.src|
    requires job.i in s1.inodes && (job.off + tot) / BSIZE < MAXFILE
    requires Mapped(sb, s1, s2, job.i, (job.off + tot) / BSIZE, addr, bits) && addr != 0
    requires InStep(job.off, |job.src|, tot, turns, copies)
    ensures addr < |s2.blocks|
    ensures Writing(sb, job, Stored(s2, addr, job.off, job.src, tot),
                    NextStop(job.off, |job.src|, tot), spent + (bits + Only(addr)))
  {
    TurnMapped(sb, job, s1, s2, tot, turns, copies, addr, spent, bits);
    StoreStep(sb, job, s2, tot, addr);
    TurnLog(sb, job, s1, s2, tot, turns, copies, addr, spent, bits);
  }

  /** Storing the next bytes keeps everything but adds them. */
  lemma StoreStep(sb: Super, job: Job, s: State, tot: nat, addr: nat)
    requires PartlyWritten(sb, job, s, tot) && tot < |job.src| && addr != 0
    requires (job.off + tot) / BSIZE < MAXFILE && addr == Addr(s.blocks, s.inodes[job.i], (job.off + tot) / BSIZE)
    ensures addr < |s.blocks|
    ensures PartlyWritten(sb, job, Stored(s, addr, job.off, job.src, tot), NextStop(job.off, |job.src|, tot))
  {
    hide Owned, Marked, Written, Settled, NoPending;
    var m := ChunkSize(|job.src| - tot, (job.off + tot) % BSIZE);
    WriteStep(sb, s.blocks, s.inodes, s.owner, job.i, Before(job), job.off, job.src, tot, m);
    assert Stored(s, addr, job.off, job.src, tot).blocks
        == s.blocks[addr := Patched(s.blocks[addr], (job.off + tot) % BSIZE, job.src, tot, m)];
    OthersTransitive(job.start.blocks, job.start.inodes, s.blocks, s.inodes,
                     Stored(s, addr, job.off, job.src, tot).blocks, s.inodes, job.i);
  }

  /** The log budget of a whole turn. */
  lemma TurnLog(sb: Super, job: Job, s1: State, s2: State, tot: nat, turns: nat, copies: nat,
                addr: nat, spent: set<nat>, bits: set<nat>)
    requires tot < |job.src| && InStep(job.off, |job.src|, tot, turns, copies)
    requires Wrote(sb, job, s2, tot, spent + (bits + Only(addr))) && 0 < addr < |s2.blocks|
    requires |spent + (bits + Only(addr))| + Lacking(s2, job.i)
             <= Spanned(job.off, tot) + Newable(job.off, tot) + 2 + (if tot == 0 && job.off % BSIZE != 0 then 0 else 1)
    requires |(spent + (bits + Only(addr))) - Maps(sb)| <= Spanned(job.off, tot) + 1
    requires PartlyWritten(sb, job, Stored(s2, addr, job.off, job.src, tot), NextStop(job.off, |job.src|, tot))
    ensures Writing(sb, job, Stored(s2, addr, job.off, job.src, tot),
                    NextStop(job.off, |job.src|, tot), spent + (bits + Only(addr)))
  {
    hide PartlyWritten, Maps;
    SpannedGrows(job.off, tot, ChunkSize(|job.src| - tot, (job.off + tot) % BSIZE));
  }

  /** What writei leaves behind: the spliced content, every other file as before, and a bounded set of
      logged blocks. */
  ghost predicate WriteDone(sb: Super, job: Job, s: State, tot: nat, touched: set<nat>) {
    && InRange(sb, job) && Settled(sb, s) && tot <= |job.src|
    && OthersSame(job.start.blocks, job.start.inodes, s.blocks, s.inodes, job.i)
    && Content(s.blocks, s.inodes[job.i]) == Spliced(Before(job), job.off, job.src[..tot])
    && s.logged <= job.start.logged + touched && |touched| <= Cost(job.off, |job.src|)
    && |touched - Maps(sb)| <= Spanned(job.off, |job.src|) + 2
  }

  /** The size of file i brought up to `end`, never down, and the inode logged. */
  function Raised(s: State, i: nat, end: nat, iblock: nat): State
    requires i in s.inodes
  {
    State(s.blocks,
          s.inodes[i := Inode(if end > s.inodes[i].size then end else s.inodes[i].size, s.inodes[i].addrs)],
          s.owner, s.logged + {iblock})
  }

  lemma FinishLog(sb: Super, off: nat, n: nat, spent: set<nat>, ind: nat, iblock: nat)
    requires |spent| <= Spanned(off, n) + Newable(off, n) + 1 && |spent - Maps(sb)| <= Spanned(off, n)
    ensures |spent + Only(ind) + {iblock}| <= Cost(off, n)
    ensures |(spent + Only(ind) + {iblock}) - Maps(sb)| <= Spanned(off, n) + 2
  {
    hide Maps, Spanned, Newable;
    var rest := spent - Maps(sb);
    SmallerSet((spent + Only(ind) + {iblock}) - Maps(sb), rest + Only(ind) + {iblock});
  }

  /** The end of writei: the size is raised if the write ran past it, and the inode is logged. */
  lemma FinishWriting(sb: Super, job: Job, s: State, tot: nat, iblock: nat, spent: set<nat>)
    returns (touched: set<nat>)
    requires Wrote(sb, job, s, tot, spent)
    ensures job.i in s.inodes
    ensures WriteDone(sb, job, Raised(s, job.i, job.off + tot, iblock), tot, touched)
    ensures job.start.inodes[job.i := Raised(s, job.i, job.off + tot, iblock).inodes[job.i]]
            == Raised(s, job.i, job.off + tot, iblock).inodes
  {
    hide Owned, Marked, NoPending, Spliced, Content, Maps, Cost, Spanned, Newable;
    touched := spent + Only(IndirectOf(s, job.i)) + {iblock};
    FinishLog(sb, job.off, |job.src|, spent, IndirectOf(s, job.i), iblock);
    var inodes := Raised(s, job.i, job.off + tot, iblock).inodes;
    var ip := inodes[job.i];
    Resize(s.blocks, s.inodes, s.owner, job.i, ip.size);
    assert Written(s.blocks, ip, Before(job), job.off, job.src, tot) by {
      assert forall c: nat | c < MAXFILE :: Addr(s.blocks, ip, c) == Addr(s.blocks, s.inodes[job.i], c);
    }
    WrittenContent(s.blocks, ip, Before(job), job.off, job.src, tot);
    forall j | j in inodes
      ensures NoHoles(s.blocks, inodes[j])
    {
      if j != job.i {
        SameFileSameContent(job.start.blocks, s.blocks, job.start.inodes[j]);
      }
    }
  }

  /** The size of a file says nothing about who owns its blocks. */
  lemma Resize(blocks: seq<Block>, inodes: Inodes, owner: Owners, i: nat, size: nat)
    requires Owned(blocks, inodes, owner) && i in inodes
    ensures Owned(blocks, inodes[i := Inode(size, inodes[i].addrs)], owner)
  {
    var after := inodes[i := Inode(size, inodes[i].addrs)];
    assert forall j, c: nat | j in after && c < MAXFILE :: Addr(blocks, after[j], c) == Addr(blocks, inodes[j], c);
  }

  // ---- readi ----

  /** What one turn of readi copies out is the next stretch of the content; the block is there. */
  lemma ReadStep(sb: Super, s: State, i: nat, k: nat, m: nat)
    requires Settled(sb, s) && i in s.inodes && 0 < m && k + m <= s.inodes[i].size && k % BSIZE + m <= BSIZE
    ensures s.inodes[i].size <= MAXFILE * BSIZE && k / BSIZE < MAXFILE
    ensures 0 < Addr(s.blocks, s.inodes[i], k / BSIZE) < |s.blocks|
    ensures s.blocks[Addr(s.blocks, s.inodes[i], k / BSIZE)][k % BSIZE..k % BSIZE + m]
            == Content(s.blocks, s.inodes[i])[k..k + m]
  {
    assert NoHoles(s.blocks, s.inodes[i]) && k / BSIZE * BSIZE <= k;
    var a := Addr(s.blocks, s.inodes[i], k / BSIZE);
    assert OwnedBy(s.owner, a, Data(i, k / BSIZE));
    var got, want := s.blocks[a][k % BSIZE..k % BSIZE + m], Content(s.blocks, s.inodes[i])[k..k + m];
    forall j | 0 <= j < m
      ensures got[j] == want[j]
    {
      assert (k + j) / BSIZE == k / BSIZE && (k + j) % BSIZE == k % BSIZE + j;
      assert want[j] == ByteAt(s.blocks, s.inodes[i], k + j);
    }
  }

  lemma SettledSound(sb: Super, s: State)
    requires Settled(sb, s)
    ensures Sound(sb, s) && NoPending(s.owner)
  {
  }

  lemma ReadStart(off: nat, n: nat, copies: nat)
    ensures InStep(off, n, 0, 0, copies)
  {
  }

  lemma ReadEnd(off: nat, n: nat, turns: nat, copies: nat)
    requires InStep(off, n, n, turns, copies)
    ensures Spanned(off, n) <= copies
  {
  }

  /** What readi returns: the bytes of the range that lie in the file, unless a copy to the caller fails. */
  ghost predicate ReadDone(sb: Super, s: State, i: nat, off: nat, n: nat, copies: nat, r: int, out: seq<Byte>)
    requires i in s.inodes && s.inodes[i].size <= MAXFILE * BSIZE
  {
    var size := s.inodes[i].size;
    if off > size || off + n >= TWO32 then r == 0 && out == []
    else
      var m := if off + n > size then size - off else n;
      && |out| <= m && out == Content(s.blocks, s.inodes[i])[off..off + |out|]
      && (copies >= Spanned(off, m) ==> r == m == |out|)
      && (copies < Spanned(off, m) ==> r == -1)
  }

  // ---- itrunc ----

  /** The owner is inode i, and itrunc has come past this block: direct and indirect entries in order,
      the indirect block last. */
  predicate Passed(o: Owner, i: nat, k: nat) {
    (o.Data? && o.inum == i && o.bn < k) || (o == Indirect(i) && k > MAXFILE)
  }

  /** itrunc has freed exactly the blocks it has come past. */
  ghost predicate Freeing(owner0: Owners, owner: Owners, i: nat, k: nat) {
    && owner.Keys == owner0.Keys
    && forall a | a in owner0 ::
         owner[a] == if Passed(owner0[a], i, k) then Free
                     else if Passed(owner0[a], i, MAXFILE + 1) then Pending
                     else owner0[a]
  }

  lemma FreeingStep(blocks: seq<Block>, inodes: Inodes, owner0: Owners, owner: Owners, i: nat, k: nat)
    requires Owned(blocks, inodes, owner0) && i in inodes && k < MAXFILE && Freeing(owner0, owner, i, k)
    ensures var a := Addr(blocks, inodes[i], k);
            if a == 0 then Freeing(owner0, owner, i, k + 1)
            else OwnedBy(owner, a, Pending) && Freeing(owner0, owner[a := Free], i, k + 1)
  {
  }

  lemma FreeingSkip(blocks: seq<Block>, inodes: Inodes, owner0: Owners, owner: Owners, i: nat)
    requires Owned(blocks, inodes, owner0) && i in inodes && Freeing(owner0, owner, i, NDIRECT)
    requires inodes[i].addrs[NDIRECT] == 0
    ensures Freeing(owner0, owner, i, MAXFILE + 1)
  {
  }

  lemma FreeingLast(blocks: seq<Block>, inodes: Inodes, owner0: Owners, owner: Owners, i: nat)
    requires Owned(blocks, inodes, owner0) && i in inodes && Freeing(owner0, owner, i, MAXFILE)
    requires inodes[i].addrs[NDIRECT] != 0
    ensures var a := inodes[i].addrs[NDIRECT];
            OwnedBy(owner, a, Pending) && Freeing(owner0, owner[a := Free], i, MAXFILE + 1)
  {
  }

  /** Midway through itrunc: the blocks come past are free, the others wait, nothing else changed; s sees
      inode i as empty already. */
  ghost predicate Truncating(sb: Super, s0: State, s: State, i: nat, k: nat) {
    && Settled(sb, s0) && i in s0.inodes && s.inodes == s0.inodes[i := Empty()]
    && Sound(sb, s) && Freeing(s0.owner, s.owner, i, k) && Recorded(sb, s0, s)
    && OthersSame(s0.blocks, s0.inodes, s.blocks, s.inodes, i)
    && (IndirectOf(s0, i) != 0 ==>
          IndirectOf(s0, i) < |s.blocks| == |s0.blocks| && s.blocks[IndirectOf(s0, i)] == s0.blocks[IndirectOf(s0, i)])
  }

  lemma StartTruncating(sb: Super, s: State, i: nat)
    requires Settled(sb, s) && i in s.inodes
    ensures Truncating(sb, s, State(s.blocks, s.inodes[i := Empty()], Detached(s.owner, i, Pending), s.logged), i, 0)
  {
    hide Recorded;
    Detach(sb, s.blocks, s.inodes, s.owner, i);
    DetachRecorded(sb, s, i);
    if IndirectOf(s, i) != 0 {
      assert OwnedBy(s.owner, IndirectOf(s, i), Indirect(i));
    }
  }

  lemma DetachRecorded(sb: Super, s: State, i: nat)
    requires Sound(sb, s)
    ensures Recorded(sb, s, State(s.blocks, s.inodes[i := Empty()], Detached(s.owner, i, Pending), s.logged))
  {
    hide Owned, Marked, Maps;
  }

  /** The block itrunc is about to free, if there is one, waits to be freed. */
  lemma TruncNext(sb: Super, s0: State, s: State, i: nat, k: nat)
    requires Truncating(sb, s0, s, i, k) && k < MAXFILE
    ensures Sound(sb, s) && i in s0.inodes
    ensures Addr(s0.blocks, s0.inodes[i], k) != 0 ==> OwnedBy(s.owner, Addr(s0.blocks, s0.inodes[i], k), Pending)
    ensures Addr(s0.blocks, s0.inodes[i], k) == 0 ==> Truncating(sb, s0, s, i, k + 1)
  {
    FreeingStep(s0.blocks, s0.inodes, s0.owner, s.owner, i, k);
  }

  lemma TruncFreed(sb: Super, s0: State, s: State, s': State, i: nat, k: nat, a: nat)
    requires Truncating(sb, s0, s, i, k) && k <= MAXFILE && a != 0 && Released(sb, s, s', a)
    requires a == if k < MAXFILE then Addr(s0.blocks, s0.inodes[i], k) else IndirectOf(s0, i)
    ensures Truncating(sb, s0, s', i, k + 1)
  {
    if k < MAXFILE {
      FreeingStep(s0.blocks, s0.inodes, s0.owner, s.owner, i, k);
    } else {
      FreeingLast(s0.blocks, s0.inodes, s0.owner, s.owner, i);
    }
    var ind := IndirectOf(s0, i);
    assert ind != 0 ==> OwnedBy(s0.owner, ind, Indirect(i)) && !OwnedBy(s.owner, ind, Meta);
    OthersTransitive(s0.blocks, s0.inodes, s.blocks, s.inodes, s'.blocks, s'.inodes, i);
    RecordedTransitive(sb, s0, s, s');
  }

  /** The entry itrunc reads from the indirect block is the block number the file had. */
  lemma TruncEntry(sb: Super, s0: State, s: State, i: nat, j: nat)
    requires Truncating(sb, s0, s, i, NDIRECT + j) && j < NINDIRECT && IndirectOf(s0, i) != 0
    ensures IndirectOf(s0, i) < |s.blocks|
    ensures Word(s.blocks[IndirectOf(s0, i)], j) == Addr(s0.blocks, s0.inodes[i], NDIRECT + j)
  {
  }

  lemma TruncSkip(sb: Super, s0: State, s: State, i: nat)
    requires Truncating(sb, s0, s, i, NDIRECT) && IndirectOf(s0, i) == 0
    ensures Truncating(sb, s0, s, i, MAXFILE + 1)
  {
    FreeingSkip(s0.blocks, s0.inodes, s0.owner, s.owner, i);
  }

  lemma TruncLast(sb: Super, s0: State, s: State, i: nat)
    requires Truncating(sb, s0, s, i, MAXFILE) && IndirectOf(s0, i) != 0
    ensures Sound(sb, s) && OwnedBy(s.owner, IndirectOf(s0, i), Pending)
  {
    FreeingLast(s0.blocks, s0.inodes, s0.owner, s.owner, i);
  }

  /** Exactly the blocks of inode i have become free, and it is empty. */
  ghost predicate Truncated(sb: Super, s0: State, s: State, i: nat) {
    && Settled(sb, s) && i in s0.inodes && s.inodes == s0.inodes[i := Empty()]
    && s.owner == Detached(s0.owner, i, Free)
    && OthersSame(s0.blocks, s0.inodes, s.blocks, s.inodes, i)
    && Recorded(sb, s0, s) && InodeBlock(sb, i) in s.logged
  }

  lemma FinishTruncating(sb: Super, s0: State, s: State, i: nat, logged: set<nat>)
    requires Truncating(sb, s0, s, i, MAXFILE + 1) && logged == s.logged + {InodeBlock(sb, i)}
    ensures Truncated(sb, s0, State(s.blocks, s.inodes, s.owner, logged), i)
    ensures s0.inodes[i := Empty()] == s.inodes
  {
    assert s.owner == Detached(s0.owner, i, Free);
    forall j | j in s.inodes
      ensures NoHoles(s.blocks, s.inodes[j])
    {
      if j != i {
        SameFileSameContent(s0.blocks, s.blocks, s0.inodes[j]);
      }
    }
  }

  /** The addresses with the first k of them set to 0. */
  function Cleared(addrs: seq<Uint>, k: nat): seq<Uint>
    requires k <= |addrs|
  {
    seq(k, _ => 0) + addrs[k..]
  }

  lemma ClearNothing(addrs: seq<Uint>)
    ensures Cleared(addrs, 0) == addrs
  {
  }

  lemma AllCleared(addrs: seq<Uint>)
    requires |addrs| == NDIRECT + 1
    ensures Inode(0, Cleared(addrs, NDIRECT + 1)) == Empty()
  {
  }

  lemma ClearNext(addrs: seq<Uint>, k: nat)
    requires k < |addrs|
    ensures Cleared(addrs, k)[k] == addrs[k]
    ensures Cleared(addrs, k)[k := 0] == Cleared(addrs, k + 1)
    ensures addrs[k] == 0 ==> Cleared(addrs, k) == Cleared(addrs, k + 1)
  {
  }

  /** The blocks below b are in use. */
  ghost predicate AllUsed(sb: Super, s: State, b: nat) {
    forall c: nat | c < b && c < sb.size :: c in s.owner && s.owner[c] != Free
  }

  /** bi is the first clear bit from block b on, or all bits are set up to the end of the bitmap block or
      of the disk. */
  ghost predicate FirstClear(sb: Super, blocks: seq<Block>, b: nat, bi: nat) {
    && bi <= BPB && (bi == BPB || b + bi >= sb.size
                     || (BitmapBlock(sb, b + bi) < |blocks| && !Used(sb, blocks, b + bi)))
    && AllSet(sb, blocks, b, bi)
  }

  ghost predicate AllSet(sb: Super, blocks: seq<Block>, b: nat, bi: nat) {
    forall c: nat | b <= c < b + bi && c < sb.size :: BitmapBlock(sb, c) < |blocks| && Used(sb, blocks, c)
  }

  /** The bits of a whole bitmap block are those of BPB consecutive blocks. */
  lemma SameBitmapBlock(sb: Super, blocks: seq<Block>, owner: Owners, b: nat, bi: nat)
    requires Marked(sb, blocks, owner) && b + bi < sb.size && b % BPB == 0 && bi < BPB
    ensures BitmapBlock(sb, b) < |blocks| && BitmapBlock(sb, b + bi) == BitmapBlock(sb, b)
    ensures Used(sb, blocks, b + bi) <==> Bit(blocks[BitmapBlock(sb, b)][bi / 8], bi % 8)
  {
    assert (b + bi) / BPB == b / BPB && (b + bi) % BPB == bi;
  }

  /** Whatever is written to a free block and to its bitmap block, both logged, is recorded. */
  lemma TakeRecorded(sb: Super, s: State, a: nat, bp: Block, data: Block)
    requires Sound(sb, s) && OwnedBy(s.owner, a, Free)
    ensures a < |s.blocks| && BitmapBlock(sb, a) < |s.blocks|
    ensures Recorded(sb, s, State(s.blocks[BitmapBlock(sb, a) := bp][a := data], s.inodes, s.owner[a := Pending],
                                  s.logged + {BitmapBlock(sb, a), a}))
  {
    hide Owned, Maps;
    assert OwnedBy(s.owner, BitmapBlock(sb, a), Meta);
    InMaps(sb, a);
  }

  lemma FoundFree(sb: Super, s: State, b: nat, bi: nat)
    requires Sound(sb, s) && AllUsed(sb, s, b) && FirstClear(sb, s.blocks, b, bi) && bi < BPB && b + bi < sb.size
    ensures FirstFree(s.owner, b + bi) && b + bi < |s.blocks| && b + bi < TWO32
    ensures b + bi != 0
  {
    assert Used(sb, s.blocks, b + bi) <==> s.owner[b + bi] != Free;
    forall c: nat | c < b + bi
      ensures c in s.owner && s.owner[c] != Free
    {
      assert c >= b ==> Used(sb, s.blocks, c);
    }
  }

  lemma SearchOn(sb: Super, s: State, b: nat, bi: nat)
    requires Sound(sb, s) && AllUsed(sb, s, b) && FirstClear(sb, s.blocks, b, bi) && (bi == BPB || b + bi >= sb.size)
    ensures AllUsed(sb, s, b + BPB)
  {
    forall c: nat | c < b + BPB && c < sb.size
      ensures c in s.owner && s.owner[c] != Free
    {
      assert c >= b ==> Used(sb, s.blocks, c);
    }
  }

  lemma NoneFree(sb: Super, s: State, b: nat)
    requires Sound(sb, s) && AllUsed(sb, s, b) && b >= sb.size
    ensures Full(s.owner) && Allocated(sb, s, s, 0)
  {
  }

  class FileSystem {
    const sb: Super
    var blocks: seq<Block>
    /** In-memory inodes, and their copies in the inode blocks. */
    var inode: Inodes
    var dinode: Inodes
    ghost var owner: Owners
    ghost var logged: set<nat>

    ghost function S(): State
      reads this
    {
      State(blocks, inode, owner, logged)
    }

    ghost predicate Valid()
      reads this
    {
      Settled(sb, S()) && dinode == inode
    }

    /** balloc: the first free block, zeroed and marked; 0 when there is none. */
    method Balloc() returns (a: Uint)
      requires Sound(sb, S())
      modifies this`blocks, this`owner, this`logged
      ensures Allocated(sb, old(S()), S(), a) && Recorded(sb, old(S()), S())
    {
      hide Owned, Marked, AllSame;
      var b := 0;
      while b < sb.size
        invariant b % BPB == 0
        invariant S() == old(S())
        invariant AllUsed(sb, S(), b)
      {
        var bi := FindClear(b);
        if bi < BPB && b + bi < sb.size {
          FoundFree(sb, S(), b, bi);
          a := b + bi;
          Take(a);
          return;
        }
        SearchOn(sb, S(), b, bi);
        b := b + BPB;
      }
      a := 0;
      NoneFree(sb, S(), b);
    }

    /** The inner loop of balloc: the first clear bit of one bitmap block. */
    method FindClear(b: nat) returns (bi: nat)
      requires Marked(sb, blocks, owner) && b < sb.size && b % BPB == 0
      ensures FirstClear(sb, blocks, b, bi)
    {
      hide Marked, Used, BitmapBlock;
      bi := 0;
      SameBitmapBlock(sb, blocks, owner, b, 0);
      while bi < BPB && b + bi < sb.size
        invariant bi <= BPB && AllSet(sb, blocks, b, bi)
      {
        SameBitmapBlock(sb, blocks, owner, b, bi);
        if !Bit(blocks[BitmapBlock(sb, b)][bi / 8], bi % 8) {
          return;
        }
        bi := bi + 1;
      }
    }

    /** Set the bit of a free block and zero the block. */
    method Take(a: nat)
      requires Sound(sb, S()) && OwnedBy(owner, a, Free)
      modifies this`blocks, this`owner, this`logged
      ensures Sound(sb, S()) && |blocks| == |old(blocks)| && owner == old(owner)[a := Pending]
      ensures blocks[a] == ZeroBlock()
      ensures logged == old(logged) + {BitmapBlock(sb, a), a}
      ensures AllSame(old(blocks), blocks, inode) && Recorded(sb, old(S()), S())
    {
      hide Recorded;
      assert Used(sb, blocks, a) <==> owner[a] != Free;
      var m, bi := BitmapBlock(sb, a), a % BPB;
      MarkUsed(blocks[m], bi);
      var bp: Block := blocks[m][bi / 8 := blocks[m][bi / 8] + Pow2(bi % 8)];
      TakeRecorded(sb, S(), a, bp, ZeroBlock());
      FlipBit(sb, blocks, inode, owner, a, bp, Pending);
      blocks := blocks[m := bp];
      owner := owner[a := Pending];
      FillPending(sb, blocks, inode, owner, a, ZeroBlock());
      blocks := blocks[a := ZeroBlock()];
      logged := logged + {m, a};
    }

    /** bfree of a block that no inode in `inodes` reaches any more. The "freeing free block" panic needs
        a clear bit, which such a block never has. */
    method Bfree(a: nat, ghost inodes: Inodes) returns (panicked: bool)
      requires Sound(sb, State(blocks, inodes, owner, logged)) && OwnedBy(owner, a, Pending)
      modifies this`blocks, this`owner, this`logged
      ensures !panicked
      ensures Released(sb, State(old(blocks), inodes, old(owner), old(logged)), State(blocks, inodes, owner, logged), a)
    {
      assert Used(sb, blocks, a) <==> owner[a] != Free;
      var m, bi := BitmapBlock(sb, a), a % BPB;
      panicked := !Bit(blocks[m][bi / 8], bi % 8);
      if panicked {
        return;
      }
      MarkFree(blocks[m], bi);
      var bp: Block := blocks[m][bi / 8 := blocks[m][bi / 8] - Pow2(bi % 8)];
      FlipBit(sb, blocks, inodes, owner, a, bp, Free);
      blocks := blocks[m := bp];
      owner := owner[a := Free];
      logged := logged + {m};
    }

    /** bmap: the block number of the bn-th block, allocated if missing; 0 when the disk is full. */
    method Bmap(i: nat, bn: nat) returns (addr: Uint, ghost bits: set<nat>)
      requires Sound(sb, S()) && NoPending(owner) && i in inode && bn < MAXFILE
      modifies this`blocks, this`inode, this`owner, this`logged
      ensures Mapped(sb, old(S()), S(), i, bn, addr, bits) && Recorded(sb, old(S()), S())
    {
      if bn < NDIRECT {
        addr, bits := BmapDirect(i, bn);
      } else {
        var ind;
        ind, bits := LoadIndirect(i);
        ghost var s1, more := S(), {};
        addr := 0;
        if ind != 0 {
          addr, more := BmapEntry(i, bn);
        }
        RecordedTransitive(sb, old(S()), s1, S());
        MappedAfterLoad(sb, old(S()), s1, S(), i, bn, ind, addr, bits, more);
        bits := bits + more;
      }
    }

    method BmapDirect(i: nat, bn: nat) returns (addr: Uint, ghost bits: set<nat>)
      requires Sound(sb, S()) && NoPending(owner) && i in inode && bn < NDIRECT
      modifies this`blocks, this`inode, this`owner, this`logged
      ensures Mapped(sb, old(S()), S(), i, bn, addr, bits) && Recorded(sb, old(S()), S())
    {
      hide Sound, NoPending, Allocated, Mapped, Recorded;
      bits := {};
      addr := inode[i].addrs[bn];
      if addr != 0 {
        MappedAlready(sb, S(), i, bn);
        RecordedNothing(sb, S());
        return;
      }
      addr := Balloc();
      MappedDirect(sb, old(S()), S(), i, bn, addr);
      if addr != 0 {
        LinkRecorded(sb, old(S()), S(), i, bn, addr);
        bits := {BitmapBlock(sb, addr)};
        inode := SetAddr(inode, i, bn, addr);
        owner := owner[addr := Data(i, bn)];
      }
    }

    method BmapEntry(i: nat, bn: nat) returns (addr: Uint, ghost bits: set<nat>)
      requires Sound(sb, S()) && NoPending(owner) && i in inode && NDIRECT <= bn < MAXFILE && IndirectOf(S(), i) != 0
      modifies this`blocks, this`owner, this`logged
      ensures Mapped(sb, old(S()), S(), i, bn, addr, bits) && Recorded(sb, old(S()), S())
    {
      hide Sound, NoPending, Allocated, Mapped, Recorded;
      bits := {};
      LoadedAlready(sb, S(), i);
      var ind := inode[i].addrs[NDIRECT];
      addr := Word(blocks[ind], bn - NDIRECT);
      if addr != 0 {
        MappedAlready(sb, S(), i, bn);
        RecordedNothing(sb, S());
        return;
      }
      addr := Balloc();
      MappedEntry(sb, old(S()), S(), i, bn, addr);
      if addr != 0 {
        EntryRecorded(sb, old(S()), S(), i, bn, addr);
        bits := {BitmapBlock(sb, addr)};
        blocks := blocks[ind := SetWord(blocks[ind], bn - NDIRECT, addr)];
        owner := owner[addr := Data(i, bn)];
        logged := logged + {ind};
      }
    }

    /** The indirect block of the file, allocated if missing. */
    method LoadIndirect(i: nat) returns (ind: Uint, ghost bits: set<nat>)
      requires Sound(sb, S()) && NoPending(owner) && i in inode
      modifies this`blocks, this`inode, this`owner, this`logged
      ensures Loaded(sb, old(S()), S(), i, ind, bits) && Recorded(sb, old(S()), S())
    {
      hide Sound, NoPending, Allocated, Loaded, Recorded;
      bits := {};
      ind := inode[i].addrs[NDIRECT];
      if ind != 0 {
        LoadedAlready(sb, S(), i);
        RecordedNothing(sb, S());
        return;
      }
      ind := Balloc();
      LoadedIndirect(sb, old(S()), S(), i, ind);
      if ind != 0 {
        LinkRecorded(sb, old(S()), S(), i, NDIRECT, ind);
        bits := {BitmapBlock(sb, ind)};
        inode := SetAddr(inode, i, NDIRECT, ind);
        owner := owner[ind := Indirect(i)];
      }
    }

    /** iupdate: the in-memory inode is copied to its inode block. */
    method Iupdate(i: nat)
      requires i in inode
      modifies this`dinode, this`logged
      ensures dinode == old(dinode)[i := inode[i]] && logged == old(logged) + {InodeBlock(sb, i)}
    {
      dinode := dinode[i := inode[i]];
      logged := logged + {InodeBlock(sb, i)};
    }

    /** writei: -1 for a bad range, else how many bytes were written. It falls short only when the disk
        is full or a copy from the caller fails. */
    method Writei(i: nat, src: seq<Byte>, off: Uint, copies: nat) returns (r: int, ghost touched: set<nat>)
      requires Valid() && i in inode && |src| < TWO32
      modifies this`blocks, this`inode, this`dinode, this`owner, this`logged
      ensures dinode == inode
      ensures r == -1 <==> OutOfRange(old(inode)[i].size, off, |src|)
      ensures r == -1 ==> S() == old(S())
      ensures r != -1 ==> 0 <= r && WriteDone(sb, Job(old(S()), i, off, src), S(), r, touched)
      ensures r != -1 ==> Recorded(sb, old(S()), S()) && InodeBlock(sb, i) in logged
      ensures r == -1 || r == |src| || copies < Spanned(off, |src|) || Full(owner)
    {
      hide Settled, Full, InRange, Refused, OutOfRange, Wrote, WriteDone, Spanned, Raised, InodeBlock;
      var n := |src|;
      ghost var job := Job(S(), i, off, src);
      RangeCheck(sb, job);
      if Refused(inode[i].size, off, n) {
        return -1, {};
      }
      var tot; ghost var spent;
      tot, spent := WriteLoop(job, i, src, off, copies);
      touched := FinishWriting(sb, job, S(), tot, InodeBlock(sb, i), spent);
      ghost var s := S();
      UpdateSize(i, off + tot);
      RecordedTransitive(sb, job.start, s, S());
      r := tot;
    }

    /** The last steps of writei. */
    method UpdateSize(i: nat, end: nat)
      requires i in inode
      modifies this`inode, this`dinode, this`logged
      ensures S() == Raised(old(S()), i, end, InodeBlock(sb, i))
      ensures inode == Raised(old(S()), i, end, InodeBlock(sb, i)).inodes
      ensures dinode == old(dinode)[i := Raised(old(S()), i, end, InodeBlock(sb, i)).inodes[i]]
      ensures Recorded(sb, old(S()), S()) && InodeBlock(sb, i) in logged
    {
      if end > inode[i].size {
        inode := inode[i := Inode(end, inode[i].addrs)];
      }
      Iupdate(i);
    }

    method WriteLoop(ghost job: Job, i: nat, src: seq<Byte>, off: nat, copies: nat)
      returns (tot: nat, ghost spent: set<nat>)
      requires InRange(sb, job) && job == Job(S(), i, off, src)
      modifies this`blocks, this`inode, this`owner, this`logged
      ensures Wrote(sb, job, S(), tot, spent) && Recorded(sb, old(S()), S())
      ensures tot == |src| || copies < Spanned(off, |src|) || Full(owner)
    {
      hide InRange, Full, Writing, Wrote, InStep, Spanned, NextStop, Recorded;
      RecordedNothing(sb, S());
      tot, spent := 0, {};
      var turns := 0;
      StartWriting(sb, job, copies);
      while tot < |src|
        invariant Writing(sb, job, S(), tot, spent) && InStep(off, |src|, tot, turns, copies) && tot <= |src|
        invariant Recorded(sb, job.start, S())
      {
        NextTurn(off, |src|, tot, turns, copies);
        var ok; ghost var s1 := S();
        ok, spent := WriteTurn(job, i, src, off, tot, turns, copies, spent);
        RecordedTransitive(sb, job.start, s1, S());
        if !ok {
          return;
        }
        tot, turns := NextStop(off, |src|, tot), turns + 1;
      }
      StopWriting(sb, job, S(), spent);
    }

    /** One turn: map the block, copy into it, log it. It fails when the disk is full or the copy fails. */
    method WriteTurn(ghost job: Job, i: nat, src: seq<Byte>, off: nat, tot: nat, turns: nat, copies: nat,
                     ghost spent: set<nat>)
      returns (ok: bool, ghost more: set<nat>)
      requires job.i == i && job.off == off && job.src == src && tot < |src|
      requires Writing(sb, job, S(), tot, spent) && InStep(off, |src|, tot, turns, copies)
      modifies this`blocks, this`inode, this`owner, this`logged
      ensures ok ==> turns < copies && Writing(sb, job, S(), NextStop(off, |src|, tot), more)
      ensures !ok ==> (turns >= copies || Full(owner)) && Wrote(sb, job, S(), tot, more)
      ensures Recorded(sb, old(S()), S())
    {
      hide Sound, NoPending, Full, Writing, Wrote, Mapped, InStep, NextStop, Stored, Recorded;
      ghost var s1 := S();
      WritingFacts(sb, job, s1, tot, spent);
      var addr; ghost var bits;
      addr, bits := Bmap(i, (off + tot) / BSIZE);
      ghost var s2 := S();
      more := spent + (bits + Only(addr));
      TurnMapped(sb, job, s1, s2, tot, turns, copies, addr, spent, bits);
      ok := addr != 0 && turns < copies;
      if ok {
        TurnWritten(sb, job, s1, s2, tot, turns, copies, addr, spent, bits);
        MappedIsData(sb, s1, s2, i, (off + tot) / BSIZE, addr, bits);
        Store(addr, off, src, tot);
        RecordedTransitive(sb, s1, s2, S());
      }
    }

    /** Copy the next bytes of src into block a and log it. */
    method Store(a: nat, off: nat, src: seq<Byte>, tot: nat)
      requires a < |blocks| && tot < |src| && !OwnedBy(owner, a, Meta)
      modifies this`blocks, this`logged
      ensures S() == Stored(old(S()), a, off, src, tot) && Recorded(sb, old(S()), S())
    {
      var at := (off + tot) % BSIZE;
      blocks := blocks[a := Patched(blocks[a], at, src, tot, ChunkSize(|src| - tot, at))];
      logged := logged + {a};
    }

    /** readi: it never allocates, because the file has no holes. */
    method Readi(i: nat, off: Uint, n: Uint, copies: nat) returns (r: int, out: seq<Byte>)
      requires Valid() && i in inode && inode[i].size <= MAXFILE * BSIZE
      modifies this`blocks, this`inode, this`owner, this`logged
      ensures S() == old(S()) && ReadDone(sb, S(), i, off, n, copies, r, out)
    {
      out := [];
      if off > inode[i].size || (off + n) % TWO32 < off {
        return 0, [];
      }
      var want := if off + n > inode[i].size then inode[i].size - off else n;
      r, out := ReadLoop(i, off, want, copies);
    }

    method ReadLoop(i: nat, off: nat, n: nat, copies: nat) returns (r: int, out: seq<Byte>)
      requires Settled(sb, S()) && i in inode && off + n <= inode[i].size <= MAXFILE * BSIZE
      modifies this`blocks, this`inode, this`owner, this`logged
      ensures S() == old(S())
      ensures |out| <= n && out == Content(blocks, inode[i])[off..off + |out|]
      ensures if copies >= Spanned(off, n) then r == n == |out| else r == -1
    {
      hide Settled, InStep, Spanned, Content;
      out := [];
      var tot, turns := 0, 0;
      ghost var content := Content(blocks, inode[i]);
      ReadStart(off, n, copies);
      while tot < n
        invariant S() == old(S()) && i in inode && InStep(off, n, tot, turns, copies) && tot <= n
        invariant |out| == tot && out == content[off..off + tot]
      {
        NextTurn(off, n, tot, turns, copies);
        var m := ChunkSize(n - tot, (off + tot) % BSIZE);
        assert NextStop(off, n, tot) == tot + m;
        var part := ReadTurn(i, off + tot, m);
        if turns >= copies {
          return -1, out;
        }
        out := out + part;
        assert content[off..off + tot] + content[off + tot..off + tot + m] == content[off..off + tot + m];
        tot, turns := tot + m, turns + 1;
      }
      ReadEnd(off, n, turns, copies);
      r := tot;
    }

    /** One turn of readi, up to the copy. */
    method ReadTurn(i: nat, k: nat, m: nat) returns (part: seq<Byte>)
      requires Settled(sb, S()) && i in inode && 0 < m && k + m <= inode[i].size <= MAXFILE * BSIZE
      requires k % BSIZE + m <= BSIZE
      modifies this`blocks, this`inode, this`owner, this`logged
      ensures S() == old(S()) && part == Content(blocks, inode[i])[k..k + m]
    {
      hide Consistent, NoPending, Content;
      ReadStep(sb, S(), i, k, m);
      SettledSound(sb, S());
      var addr; ghost var bits;
      addr, bits := Bmap(i, k / BSIZE);
      part := blocks[addr][k % BSIZE..k % BSIZE + m];
    }

    /** itrunc: frees exactly the blocks of the file; bfree never finds one of them free. */
    method Itrunc(i: nat) returns (panicked: bool)
      requires Valid() && i in inode
      modifies this`blocks, this`inode, this`dinode, this`owner, this`logged
      ensures !panicked && dinode == inode && Truncated(sb, old(S()), S(), i)
    {
      hide Settled, Detached, Truncating, Truncated, Cleared, Empty, InodeBlock;
      ghost var s0 := S();
      StartTruncating(sb, s0, i);
      owner := Detached(owner, i, Pending);
      panicked := TruncDirect(s0, i);
      if panicked {
        return;
      }
      panicked := TruncIndirect(s0, i);
      if panicked {
        return;
      }
      ClearSize(s0, i);
    }

    /** The last steps of itrunc. */
    method ClearSize(ghost s0: State, i: nat)
      requires i in s0.inodes && dinode == s0.inodes && Truncating(sb, s0, Emptied(s0, i), i, MAXFILE + 1)
      requires inode == s0.inodes[i := Inode(s0.inodes[i].size, Cleared(s0.inodes[i].addrs, NDIRECT + 1))]
      modifies this`inode, this`dinode, this`logged
      ensures dinode == inode && Truncated(sb, s0, S(), i)
    {
      hide Truncating, Truncated, Cleared, Empty, InodeBlock;
      ghost var s := Emptied(s0, i);
      AllCleared(s0.inodes[i].addrs);
      inode := inode[i := Inode(0, inode[i].addrs)];
      Iupdate(i);
      FinishTruncating(sb, s0, s, i, logged);
    }

    /** The state as itrunc's proof sees it: inode i is empty already. */
    ghost function Emptied(s0: State, i: nat): State
      reads this
    {
      State(blocks, s0.inodes[i := Empty()], owner, logged)
    }

    /** The loop over the direct blocks. */
    method TruncDirect(ghost s0: State, i: nat) returns (panicked: bool)
      requires Truncating(sb, s0, Emptied(s0, i), i, 0) && i in s0.inodes && inode == s0.inodes
      modifies this`blocks, this`inode, this`owner, this`logged
      ensures !panicked && Truncating(sb, s0, Emptied(s0, i), i, NDIRECT)
      ensures inode == s0.inodes[i := Inode(s0.inodes[i].size, Cleared(s0.inodes[i].addrs, NDIRECT))]
    {
      hide Truncating, Sound, Released, Cleared;
      ghost var addrs := inode[i].addrs;
      assert Cleared(addrs, 0) == addrs by {
        ClearNothing(addrs);
      }
      panicked := false;
      for k := 0 to NDIRECT
        invariant Truncating(sb, s0, Emptied(s0, i), i, k)
        invariant inode == s0.inodes[i := Inode(s0.inodes[i].size, Cleared(addrs, k))]
      {
        ghost var s := Emptied(s0, i);
        TruncNext(sb, s0, s, i, k);
        ClearNext(addrs, k);
        var a := inode[i].addrs[k];
        if a != 0 {
          panicked := Bfree(a, s0.inodes[i := Empty()]);
          if panicked {
            return;
          }
          TruncFreed(sb, s0, s, Emptied(s0, i), i, k, a);
          inode := inode[i := Inode(inode[i].size, inode[i].addrs[k := 0])];
        }
      }
    }

    /** The entries of the indirect block, then the indirect block itself. */
    method TruncIndirect(ghost s0: State, i: nat) returns (panicked: bool)
      requires Truncating(sb, s0, Emptied(s0, i), i, NDIRECT) && i in s0.inodes
      requires inode == s0.inodes[i := Inode(s0.inodes[i].size, Cleared(s0.inodes[i].addrs, NDIRECT))]
      modifies this`blocks, this`inode, this`owner, this`logged
      ensures !panicked && Truncating(sb, s0, Emptied(s0, i), i, MAXFILE + 1)
      ensures inode == s0.inodes[i := Inode(s0.inodes[i].size, Cleared(s0.inodes[i].addrs, NDIRECT + 1))]
    {
      hide Truncating, Sound, Released, Cleared;
      ghost var addrs := s0.inodes[i].addrs;
      ClearNext(addrs, NDIRECT);
      panicked := false;
      var ind := inode[i].addrs[NDIRECT];
      if ind == 0 {
        TruncSkip(sb, s0, Emptied(s0, i), i);
        return;
      }
      for j := 0 to NINDIRECT
        invariant Truncating(sb, s0, Emptied(s0, i), i, NDIRECT + j)
        invariant inode == s0.inodes[i := Inode(s0.inodes[i].size, Cleared(addrs, NDIRECT))]
      {
        ghost var s := Emptied(s0, i);
        TruncNext(sb, s0, s, i, NDIRECT + j);
        TruncEntry(sb, s0, s, i, j);
        var a := Word(blocks[ind], j);
        if a != 0 {
          panicked := Bfree(a, s0.inodes[i := Empty()]);
          if panicked {
            return;
          }
          TruncFreed(sb, s0, s, Emptied(s0, i), i, NDIRECT + j, a);
        }
      }
      ghost var s := Emptied(s0, i);
      TruncLast(sb, s0, s, i);
      panicked := Bfree(ind, s0.inodes[i := Empty()]);
      if panicked {
        return;
      }
      TruncFreed(sb, s0, s, Emptied(s0, i), i, MAXFILE, ind);
      inode := inode[i := Inode(inode[i].size, inode[i].addrs[NDIRECT := 0])];
    }
  }
}
