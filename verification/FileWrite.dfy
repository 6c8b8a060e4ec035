/**
 filewrite on an inode (kernel/file.c): a write is cut into chunks, each its own
 transaction, so that no transaction logs more blocks than an operation may.
 */
module FileWrite {
  import opened Blocks
  import opened Bitmap
  import GroupCommit
  import opened Ownership
  import opened Fs

  const MAXOPBLOCKS: nat := GroupCommit.MAXOPBLOCKS

  /** Bytes per transaction: room for the inode, the indirect block and two blocks of slop, and an
      allocation for every data block. */
  const CHUNK: nat := (MAXOPBLOCKS - 1 - 1 - 2) / 2 * BSIZE

  /** Every chunk fits a transaction, at any offset. */
  lemma ChunkFits(off: nat, n: nat)
    requires n <= CHUNK
    ensures Cost(off, n) <= MAXOPBLOCKS
  {
    SpannedBound(off, n);
  }

  lemma SpannedBound(off: nat, n: nat)
    requires n <= 3 * BSIZE
    ensures Spanned(off, n) <= if off % BSIZE == 0 then 3 else 4
  {
  }

  /** The content of file i as the caller of write sees it. */
  ghost predicate Appended(sb: Super, s0: State, s: State, i: nat, off: nat, data: seq<Byte>) {
    && i in s0.inodes && s0.inodes[i].size <= MAXFILE * BSIZE && off <= s0.inodes[i].size
    && Settled(sb, s) && OthersSame(s0.blocks, s0.inodes, s.blocks, s.inodes, i)
    && s.inodes[i].size <= MAXFILE * BSIZE
    && Content(s.blocks, s.inodes[i]) == Spliced(Content(s0.blocks, s0.inodes[i]), off, data)
  }

  lemma AppendMore(sb: Super, s0: State, s1: State, s2: State, i: nat, off: nat, data: seq<Byte>,
                   src: seq<Byte>, r: nat, touched: set<nat>)
    requires Appended(sb, s0, s1, i, off, data)
    requires r <= |src| && WriteDone(sb, Job(s1, i, off + |data|, src), s2, r, touched)
    ensures Appended(sb, s0, s2, i, off, data + src[..r])
  {
    SplicedTwice(Content(s0.blocks, s0.inodes[i]), off, data, src[..r]);
    OthersTransitive(s0.blocks, s0.inodes, s1.blocks, s1.inodes, s2.blocks, s2.inodes, i);
    assert NoHoles(s2.blocks, s2.inodes[i]);
  }

  lemma AppendNothing(sb: Super, s: State, i: nat, off: nat)
    requires Settled(sb, s) && i in s.inodes && off <= s.inodes[i].size
    ensures s.inodes[i].size <= MAXFILE * BSIZE && Appended(sb, s, s, i, off, [])
  {
    assert NoHoles(s.blocks, s.inodes[i]);
    var c := Content(s.blocks, s.inodes[i]);
    assert Spliced(c, off, []) == c;
  }

  lemma AppendedReach(sb: Super, s0: State, s: State, i: nat, off: nat, data: seq<Byte>)
    requires Appended(sb, s0, s, i, off, data)
    ensures Settled(sb, s) && i in s.inodes && off + |data| <= s.inodes[i].size <= MAXFILE * BSIZE
  {
    SplicedReads(Content(s0.blocks, s0.inodes[i]), off, data);
  }

  /** What one call of filewrite leaves behind: `done` bytes written at the file offset, which has
      moved past them. */
  ghost predicate FileWritten(sb: Super, s0: State, s: State, i: nat, off0: nat, off: nat, src: seq<Byte>, done: nat) {
    && done <= |src| && i in s0.inodes
    && if off0 > s0.inodes[i].size then Same(s0, s) && done == 0 && off == off0
       else off == off0 + done && Appended(sb, s0, s, i, off0, src[..done])
  }

  /** The file system is as it was. */
  predicate Same(s0: State, s: State) {
    s.blocks == s0.blocks && s.inodes == s0.inodes && s.owner == s0.owner
  }

  /** How many bytes the next transaction takes on when `left` are left. */
  function ChunkLength(left: nat): nat {
    if left > CHUNK then CHUNK else left
  }

  /** Where in the caller's bytes the t-th transaction starts. */
  function Start(t: nat): nat {
    t * CHUNK
  }

  lemma StartNext(t: nat)
    ensures Start(0) == 0 && Start(t + 1) == Start(t) + CHUNK
  {
  }

  /** The piece of the caller's bytes that the t-th transaction writes. */
  function Piece(src: seq<Byte>, n: int, t: nat): (r: seq<Byte>)
    requires Start(t) < n <= |src|
  {
    src[Start(t)..Start(t) + ChunkLength(n - Start(t))]
  }

  /** begin_op: a new transaction has logged nothing. */
  function Begun(s: State): State {
    State(s.blocks, s.inodes, s.owner, {})
  }

  /** One transaction of filewrite: writei returned r; s'.logged is what the transaction logged. */
  ghost predicate Transaction(sb: Super, i: nat, off: nat, data: seq<Byte>, s: State, s': State, r: int) {
    && i in s.inodes && (r == -1 <==> OutOfRange(s.inodes[i].size, off, |data|)) && |s'.logged| <= MAXOPBLOCKS
    && (sb.size <= BPB ==> |s'.logged| <= MAXOPBLOCKS - 3)
    && if r == -1 then s' == Begun(s)
       else
         && 0 <= r <= |data| && WriteDone(sb, Job(Begun(s), i, off, data), s', r, s'.logged)
         && Recorded(sb, Begun(s), s') && InodeBlock(sb, i) in s'.logged
  }

  /** The logged blocks themselves meet writei's bounds. */
  lemma WriteDoneLogged(sb: Super, job: Job, s: State, tot: nat, touched: set<nat>)
    requires WriteDone(sb, job, s, tot, touched) && job.start.logged == {}
    ensures WriteDone(sb, job, s, tot, s.logged)
  {
    hide Settled, Spliced, Content, OthersSame, Cost, Spanned, Maps;
    SmallerSet(s.logged, touched);
    SmallerSet(s.logged - Maps(sb), touched - Maps(sb));
  }

  /** A chunk logs at most MAXOPBLOCKS blocks, and on a disk with one bitmap block at most seven. */
  lemma ChunkLogs(sb: Super, job: Job, s: State, tot: nat)
    requires WriteDone(sb, job, s, tot, s.logged) && |job.src| <= CHUNK
    ensures |s.logged| <= MAXOPBLOCKS && (sb.size <= BPB ==> |s.logged| <= MAXOPBLOCKS - 3)
  {
    hide Settled, Spliced, Content, OthersSame, Cost, Spanned, Maps;
    ChunkFits(job.off, |job.src|);
    SpannedBound(job.off, |job.src|);
    if sb.size <= BPB {
      OneMap(sb);
      SmallerSet(s.logged, (s.logged - Maps(sb)) + Maps(sb));
    }
  }

  /** The transactions of one call: the t-th goes from states[t] to states[t + 1], and all but the last
      write their whole piece. */
  ghost predicate Run(sb: Super, i: nat, off0: nat, src: seq<Byte>, n: int, states: seq<State>, rs: seq<int>) {
    |states| == |rs| + 1 && forall t: nat | t < |rs| :: RunStep(sb, i, off0, src, n, states, rs, t)
  }

  ghost predicate RunStep(sb: Super, i: nat, off0: nat, src: seq<Byte>, n: int, states: seq<State>, rs: seq<int>,
                          t: nat)
    requires t < |rs| && |states| == |rs| + 1
  {
    && Start(t) < n <= |src|
    && Transaction(sb, i, off0 + Start(t), Piece(src, n, t), states[t], states[t + 1], rs[t])
    && (t < |rs| - 1 ==> rs[t] == CHUNK)
  }

  lemma RunMore(sb: Super, i: nat, off0: nat, src: seq<Byte>, n: int, states: seq<State>, rs: seq<int>, s: State,
                r: int)
    requires Run(sb, i, off0, src, n, states, rs) && Start(|rs|) < n <= |src|
    requires rs != [] ==> rs[|rs| - 1] == CHUNK
    requires Transaction(sb, i, off0 + Start(|rs|), Piece(src, n, |rs|), states[|rs|], s, r)
    ensures Run(sb, i, off0, src, n, states + [s], rs + [r])
  {
    hide Transaction, Piece, Start;
    forall t: nat | t < |rs + [r]|
      ensures RunStep(sb, i, off0, src, n, states + [s], rs + [r], t)
    {
      assert t < |rs| ==> RunStep(sb, i, off0, src, n, states, rs, t);
    }
  }

  /** How many bytes the transactions have written: all but the last are whole. */
  function Total(rs: seq<int>): nat {
    if rs == [] then 0 else Start(|rs| - 1) + Gain(rs[|rs| - 1])
  }

  /** Why filewrite stops short: the last transaction was out of range, found the disk full or met a copy
      from the caller that failed. */
  ghost predicate Short(off0: nat, n: int, rs: seq<int>, owner: Owners, copies: nat -> nat) {
    && rs != [] && Start(|rs| - 1) < n
    && var t := |rs| - 1;
       rs[t] == -1 || Full(owner) || copies(t) < Spanned(off0 + Start(t), ChunkLength(n - Start(t)))
  }

  function Gain(r: int): nat {
    if r > 0 then r else 0
  }

  /** One transaction of filewrite adds what its writei wrote. */
  lemma ChunkWritten(sb: Super, s0: State, s1: State, s2: State, i: nat, off0: nat, off: nat, src: seq<Byte>,
                     done: nat, n1: nat, r: int)
    requires FileWritten(sb, s0, s1, i, off0, off, src, done) && i in s1.inodes && done + n1 <= |src|
    requires Transaction(sb, i, off, src[done..done + n1], s1, s2, r)
    ensures FileWritten(sb, s0, s2, i, off0, off + Gain(r), src, done + Gain(r))
  {
    hide Settled, Content, Spliced, OthersSame, Cost, Maps, Recorded;
    if r == -1 {
      BegunSettled(sb, s1);
    } else {
      AppendMore(sb, s0, Begun(s1), s2, i, off0, src[..done], src[done..done + n1], r, s2.logged);
      assert src[..done] + src[done..done + n1][..r] == src[..done + r];
    }
  }

  lemma BegunSettled(sb: Super, s: State)
    ensures Settled(sb, Begun(s)) == Settled(sb, s)
  {
  }

  lemma StartFilewrite(sb: Super, s: State, i: nat, off: nat, src: seq<Byte>)
    requires Settled(sb, s) && i in s.inodes
    ensures FileWritten(sb, s, s, i, off, off, src, 0)
  {
    if off <= s.inodes[i].size {
      AppendNothing(sb, s, i, off);
      assert src[..0] == [];
    }
  }

  lemma OffsetInRange(sb: Super, s0: State, s: State, i: nat, off0: nat, off: nat, src: seq<Byte>, done: nat)
    requires FileWritten(sb, s0, s, i, off0, off, src, done) && off0 < TWO32
    ensures i in s.inodes && off < TWO32
  {
    if off0 <= s0.inodes[i].size {
      AppendedReach(sb, s0, s, i, off0, src[..done]);
    }
  }

  lemma TransactionSettled(sb: Super, i: nat, off: nat, data: seq<Byte>, s: State, s': State, r: int)
    requires Transaction(sb, i, off, data, s, s', r) && Settled(sb, s)
    ensures Settled(sb, s') && i in s'.inodes && r <= |data|
  {
  }

  /** filewrite for an inode: n when every byte was written, else -1. The file system goes through `states`,
      one transaction from each to the next; rs[t] is what the t-th writei returned, and copies(t) how many
      copies from the caller succeed in it. It falls short only because the last transaction was out of
      range, found the disk full or met a failing copy. */
  method Filewrite(fs: FileSystem, i: nat, off0: Uint, src: seq<Byte>, n: int, copies: nat -> nat)
    returns (ret: int, off: Uint, ghost done: nat, ghost states: seq<State>, ghost rs: seq<int>)
    requires fs.Valid() && i in fs.inode && n <= |src| < TWO32
    modifies fs
    ensures fs.dinode == fs.inode && Settled(fs.sb, fs.S())
    ensures Run(fs.sb, i, off0, src, n, states, rs) && states[0] == old(fs.S()) && states[|rs|] == fs.S()
    ensures FileWritten(fs.sb, old(fs.S()), fs.S(), i, off0, off, src, done) && done == Total(rs)
    ensures (rs == [] <==> n <= 0) && ret == if done == n then n else -1
    ensures done < n ==> Short(off0, n, rs, fs.owner, copies)
  {
    hide Settled, FileWritten, Transaction, RunStep, OutOfRange, Spanned, Full, Piece, Start;
    ghost var s0 := fs.S();
    StartFilewrite(fs.sb, s0, i, off0, src);
    off, done, states, rs := off0, 0, [s0], [];
    var k, t := 0, 0;
    StartNext(0);
    while k < n
      invariant 0 <= k == done == Total(rs) && (k <= n || n < 0) && off == off0 + k
      invariant t == |rs| && (t > 0 ==> n > 0) && (k < n ==> k == Start(t) && (t > 0 ==> rs[t - 1] == CHUNK))
      invariant fs.dinode == fs.inode && Settled(fs.sb, fs.S()) && i in fs.inode
      invariant FileWritten(fs.sb, s0, fs.S(), i, off0, off, src, done)
      invariant Run(fs.sb, i, off0, src, n, states, rs) && states[0] == s0 && states[t] == fs.S()
    {
      var n1 := ChunkLength(n - k);
      ghost var s1 := fs.S();
      PieceIs(src, n, t);
      StartNext(t);
      var r := WriteChunk(fs, i, src[k..k + n1], off, copies(t));
      RunMore(fs.sb, i, off0, src, n, states, rs, fs.S(), r);
      TransactionSettled(fs.sb, i, off, src[k..k + n1], s1, fs.S(), r);
      ChunkWritten(fs.sb, s0, s1, fs.S(), i, off0, off, src, k, n1, r);
      OffsetInRange(fs.sb, s0, fs.S(), i, off0, off + Gain(r), src, k + Gain(r));
      states, rs, t := states + [fs.S()], rs + [r], t + 1;
      if r > 0 {
        off := off + r;
      }
      done := k + Gain(r);
      if r != n1 {
        break;
      }
      k := k + r;
    }
    ret := if k == n then n else -1;
  }

  lemma PieceIs(src: seq<Byte>, n: nat, t: nat)
    requires Start(t) < n <= |src|
    ensures Piece(src, n, t) == src[Start(t)..Start(t) + ChunkLength(n - Start(t))]
    ensures |Piece(src, n, t)| == ChunkLength(n - Start(t))
  {
  }

  /** One turn of the loop: a transaction around writei. */
  method WriteChunk(fs: FileSystem, i: nat, data: seq<Byte>, off: Uint, copies: nat) returns (r: int)
    requires fs.Valid() && i in fs.inode && |data| <= CHUNK
    modifies fs
    ensures fs.dinode == fs.inode
    ensures Transaction(fs.sb, i, off, data, old(fs.S()), fs.S(), r)
    ensures r == -1 || r == |data| || copies < Spanned(off, |data|) || Full(fs.owner)
  {
    hide Settled, WriteDone, OutOfRange, Cost, Spanned, Full, Recorded;
    BegunSettled(fs.sb, fs.S());
    fs.logged := {};
    ghost var s := fs.S();
    ghost var touched;
    r, touched := fs.Writei(i, data, off, copies);
    if r != -1 {
      WriteDoneLogged(fs.sb, Job(s, i, off, data), fs.S(), r, touched);
      ChunkLogs(fs.sb, Job(s, i, off, data), fs.S(), r);
      assert r <= |data| by { WriteDoneTotal(fs.sb, Job(s, i, off, data), fs.S(), r, touched); }
    }
  }

  lemma WriteDoneTotal(sb: Super, job: Job, s: State, tot: nat, touched: set<nat>)
    requires WriteDone(sb, job, s, tot, touched)
    ensures tot <= |job.src|
  {
  }
}
