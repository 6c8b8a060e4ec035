/**
 The redo log (kernel/log.c) on a disk of blocks with atomic single-block
 writes. A crash stops the run after any write; recovery then runs
 recover_from_log, and may itself be cut short any number of times.
 */
module Redo {
  import opened Blocks
  import opened GroupCommit

  type Disk = seq<Block>

  /** log.start and log.size from the super block. */
  datatype Layout = Layout(start: nat, size: nat)

  predicate Fits(lay: Layout, d: Disk) {
    1 <= lay.size && lay.start + lay.size <= |d| <= TWO32
  }

  /** The block lies outside the log: it is the home of file-system data. */
  predicate IsHome(lay: Layout, b: int) {
    b < lay.start || lay.start + lay.size <= b
  }

  function HeadCount(lay: Layout, d: Disk): nat
    requires Fits(lay, d)
  {
    Word(d[lay.start], 0)
  }

  function HeadBlock(lay: Layout, d: Disk, i: nat): nat
    requires Fits(lay, d) && i < LOGSIZE
  {
    Word(d[lay.start], i + 1)
  }

  /** The on-disk header describes a transaction the log can hold. */
  predicate GoodHead(lay: Layout, d: Disk) {
    && Fits(lay, d)
    && HeadCount(lay, d) <= LOGSIZE && HeadCount(lay, d) < lay.size
    && forall i | 0 <= i < HeadCount(lay, d) ::
         HeadBlock(lay, d, i) < |d| && IsHome(lay, HeadBlock(lay, d, i))
  }

  predicate SameHome(lay: Layout, d: Disk, e: Disk) {
    |d| == |e| && forall b | 0 <= b < |d| && IsHome(lay, b) :: d[b] == e[b]
  }

  predicate SameLog(lay: Layout, d: Disk, e: Disk) {
    |d| == |e| && forall b | 0 <= b < |d| && !IsHome(lay, b) :: d[b] == e[b]
  }

  // ---- what recovery means ----

  /** The disk after the first k logged blocks were copied to their home locations. */
  ghost function Install(lay: Layout, d: Disk, k: nat): (r: Disk)
    requires GoodHead(lay, d) && k <= HeadCount(lay, d)
    ensures SameLog(lay, d, r)
  {
    if k == 0 then d
    else Install(lay, d, k - 1)[HeadBlock(lay, d, k - 1) := d[lay.start + k]]
  }

  function ClearHead(lay: Layout, d: Disk): Disk
    requires Fits(lay, d)
  {
    d[lay.start := SetWord(d[lay.start], 0, 0)]
  }

  /** The disk a completed recovery leaves behind. */
  ghost function Recovered(lay: Layout, d: Disk): (r: Disk)
    requires GoodHead(lay, d)
    ensures |r| == |d|
  {
    ClearHead(lay, Install(lay, d, HeadCount(lay, d)))
  }

  ghost predicate Logged(lay: Layout, d: Disk, k: nat, b: nat)
    requires Fits(lay, d) && k <= LOGSIZE
  {
    exists i :: 0 <= i < k && HeadBlock(lay, d, i) == b
  }

  lemma SameHeader(lay: Layout, d: Disk, e: Disk)
    requires GoodHead(lay, d) && SameLog(lay, d, e)
    ensures GoodHead(lay, e) && HeadCount(lay, e) == HeadCount(lay, d) <= LOGSIZE && HeadCount(lay, d) < lay.size
    ensures Fits(lay, d) && forall i: nat | i < LOGSIZE :: HeadBlock(lay, e, i) == HeadBlock(lay, d, i)
    ensures forall i: nat | i < HeadCount(lay, d) :: HeadBlock(lay, d, i) < |d|
  {
    hide Word;
    assert d[lay.start] == e[lay.start];
    assert forall i: nat | i < LOGSIZE :: HeadBlock(lay, e, i) == HeadBlock(lay, d, i);
  }

  /** Where a block is logged its installed contents depend only on the log; elsewhere it is untouched. */
  lemma {:induction false} InstallFromLog(lay: Layout, d: Disk, e: Disk, k: nat)
    requires GoodHead(lay, d) && SameLog(lay, d, e) && k <= HeadCount(lay, d)
    ensures GoodHead(lay, e) && HeadCount(lay, e) == HeadCount(lay, d)
    ensures forall b: nat | b < |d| ::
              if Logged(lay, d, k, b) then Install(lay, d, k)[b] == Install(lay, e, k)[b]
              else Install(lay, d, k)[b] == d[b] && Install(lay, e, k)[b] == e[b]
  {
    hide Logged, GoodHead, HeadBlock, HeadCount;
    SameHeader(lay, d, e);
    if k == 0 {
      NothingLogged(lay, d);
    } else {
      InstallFromLog(lay, d, e, k - 1);
      forall b: nat | b < |d|
        ensures if Logged(lay, d, k, b) then Install(lay, d, k)[b] == Install(lay, e, k)[b]
                else Install(lay, d, k)[b] == d[b] && Install(lay, e, k)[b] == e[b]
      {
        LoggedNext(lay, d, k, b);
      }
    }
  }

  /** Installing again over a partly installed disk ends in the same disk. */
  lemma InstallAgain(lay: Layout, d: Disk, k: nat)
    requires GoodHead(lay, d) && k <= HeadCount(lay, d)
    ensures GoodHead(lay, Install(lay, d, k))
    ensures Recovered(lay, Install(lay, d, k)) == Recovered(lay, d)
  {
    var e, n := Install(lay, d, k), HeadCount(lay, d);
    InstallFromLog(lay, d, e, n);
    InstallFromLog(lay, d, e, k);
    forall b: nat | b < |d|
      ensures Install(lay, d, n)[b] == Install(lay, e, n)[b]
    {
      if !Logged(lay, d, n, b) {
        assert !Logged(lay, d, k, b);
      }
    }
    assert Install(lay, d, n) == Install(lay, e, n);
  }

  lemma ClearedHead(lay: Layout, d: Disk)
    requires Fits(lay, d)
    ensures Fits(lay, ClearHead(lay, d)) && HeadCount(lay, ClearHead(lay, d)) == 0
    ensures GoodHead(lay, ClearHead(lay, d))
    ensures Recovered(lay, ClearHead(lay, d)) == ClearHead(lay, d)
  {
    SetWordReads(d[lay.start], 0, 0);
    var b := SetWord(d[lay.start], 0, 0);
    assert SetWord(b, 0, 0) == b;
  }

  /** The disk states recover_from_log passes through, one per block write, starting from d. */
  ghost predicate RecoveryState(lay: Layout, d: Disk, s: Disk)
    requires GoodHead(lay, d)
  {
    || s == Recovered(lay, d)
    || exists k: nat :: k <= HeadCount(lay, d) && s == Install(lay, d, k)
  }

  /** A crash at any point of recovery leaves a disk that recovers to the same result. */
  lemma RecoveryIsRestartable(lay: Layout, d: Disk, s: Disk)
    requires GoodHead(lay, d) && RecoveryState(lay, d, s)
    ensures GoodHead(lay, s) && Recovered(lay, s) == Recovered(lay, d)
  {
    if s == Recovered(lay, d) {
      ClearedHead(lay, Install(lay, d, HeadCount(lay, d)));
    } else {
      var k: nat :| k <= HeadCount(lay, d) && s == Install(lay, d, k);
      InstallAgain(lay, d, k);
    }
  }

  /** Each disk after the first is where a recovery started from the one before it was cut short. */
  ghost predicate CrashChain(lay: Layout, ds: seq<Disk>) {
    && ds != [] && (forall i | 0 <= i < |ds| :: GoodHead(lay, ds[i]))
    && forall i | 0 <= i < |ds| - 1 :: RecoveryState(lay, ds[i], ds[i + 1])
  }

  /** Recovery interrupted any number of times recovers what an uninterrupted one would. */
  lemma {:induction false} AnyNumberOfCrashes(lay: Layout, ds: seq<Disk>)
    requires CrashChain(lay, ds)
    ensures Recovered(lay, ds[|ds| - 1]) == Recovered(lay, ds[0])
    ensures HeadCount(lay, Recovered(lay, ds[|ds| - 1])) == 0
  {
    ClearedHead(lay, Install(lay, ds[|ds| - 1], HeadCount(lay, ds[|ds| - 1])));
    if |ds| > 1 {
      AnyNumberOfCrashes(lay, ds[..|ds| - 1]);
      RecoveryIsRestartable(lay, ds[|ds| - 2], ds[|ds| - 1]);
    }
  }

  // ---- what a commit means ----

  /** The disk with every listed block replaced by its cached contents. */
  ghost function Overlay(d: Disk, cache: map<nat, Block>): (r: Disk)
    ensures |r| == |d|
  {
    seq(|d|, i requires 0 <= i < |d| => if i in cache then cache[i] else d[i])
  }

  /** The on-disk log holds the cached contents of exactly the blocks in cache. */
  ghost predicate HoldsTransaction(lay: Layout, d: Disk, cache: map<nat, Block>) {
    && GoodHead(lay, d)
    && (forall i | 0 <= i < HeadCount(lay, d) ::
         && HeadBlock(lay, d, i) in cache
         && d[lay.start + 1 + i] == cache[HeadBlock(lay, d, i)])
    && (forall b | b in cache :: b < |d| && Logged(lay, d, HeadCount(lay, d), b))
  }

  lemma {:induction false} InstallOverlays(lay: Layout, d: Disk, cache: map<nat, Block>, k: nat)
    requires HoldsTransaction(lay, d, cache) && k <= HeadCount(lay, d)
    ensures forall b: nat | b < |d| ::
              if Logged(lay, d, k, b) then b in cache && Install(lay, d, k)[b] == cache[b]
              else Install(lay, d, k)[b] == d[b]
  {
    hide Logged;
    if k == 0 {
      assert forall b: nat | b < |d| :: !Logged(lay, d, 0, b) by { NothingLogged(lay, d); }
    } else {
      InstallOverlays(lay, d, cache, k - 1);
      var h := HeadBlock(lay, d, k - 1);
      assert d[lay.start + 1 + (k - 1)] == cache[h];
      forall b: nat | b < |d|
        ensures if Logged(lay, d, k, b) then b in cache && Install(lay, d, k)[b] == cache[b]
                else Install(lay, d, k)[b] == d[b]
      {
        LoggedNext(lay, d, k, b);
      }
    }
  }

  lemma NothingLogged(lay: Layout, d: Disk)
    requires Fits(lay, d)
    ensures forall b: nat :: !Logged(lay, d, 0, b)
  {
  }

  lemma LoggedNext(lay: Layout, d: Disk, k: nat, b: nat)
    requires Fits(lay, d) && 0 < k <= LOGSIZE
    ensures Logged(lay, d, k, b) <==> Logged(lay, d, k - 1, b) || HeadBlock(lay, d, k - 1) == b
  {
    if HeadBlock(lay, d, k - 1) == b {
      assert 0 <= k - 1 < k;
    }
  }

  /** A disk whose log holds the transaction recovers to the old homes overlaid with it. */
  lemma RecoversTransaction(lay: Layout, d: Disk, cache: map<nat, Block>)
    requires HoldsTransaction(lay, d, cache)
    ensures SameHome(lay, Recovered(lay, d), Overlay(d, cache))
    ensures SameHome(lay, Install(lay, d, HeadCount(lay, d)), Overlay(d, cache))
  {
    InstallOverlays(lay, d, cache, HeadCount(lay, d));
    forall b | 0 <= b < |d| && IsHome(lay, b)
      ensures Install(lay, d, HeadCount(lay, d))[b] == Overlay(d, cache)[b]
    {
      if b in cache {
        assert Logged(lay, d, HeadCount(lay, d), b);
      }
    }
  }

  lemma RecoversNothing(lay: Layout, d: Disk)
    requires Fits(lay, d) && HeadCount(lay, d) == 0
    ensures GoodHead(lay, d) && SameHome(lay, Recovered(lay, d), d)
  {
  }
}
