/**
 How the log uses the buffer cache (log_write and install_trans in kernel/log.c
 on the buffers of kernel/bio.c): a logged block stays in the cache until it has
 been written to its home, so that reading it always gives the logged contents.
 */
module PinnedBlocks {
  import opened Blocks
  import opened Bcache
  import Seqs

  /** One more reference is held on the buffer of a logged block. */
  function Pin(b: Buf, logged: set<Key>): nat {
    if b.valid && b.key in logged then 1 else 0
  }

  /** Every reference is that of a holder or of the log; every logged block is in the cache; and what the
      disk lacks is in a buffer of a logged block or in one that its holder has just changed. */
  ghost predicate Accounted(bufs: seq<Buf>, disk: map<Key, Block>, logged: set<Key>, holds: seq<nat>, dirty: set<nat>) {
    && |holds| == |bufs|
    && (forall b: nat | b < |bufs| :: bufs[b].refcnt == holds[b] + Pin(bufs[b], logged))
    && (forall k | k in logged :: k.dev != 0 && Cached(bufs, k))
    && (forall b: nat | b < |bufs| && bufs[b].valid && bufs[b].key !in logged && b !in dirty ::
          bufs[b].key in disk && disk[bufs[b].key] == bufs[b].data)
    && (forall b | b in dirty :: b < |bufs| && holds[b] > 0 && bufs[b].valid)
  }

  /** While no holder is in the middle of a change, a reader sees the contents in the pinned buffer of a
      logged block, and the disk's contents of every other block. */
  lemma ViewIsLoggedOrDisk(bufs: seq<Buf>, disk: map<Key, Block>, view: map<Key, Block>, logged: set<Key>,
                           holds: seq<nat>, k: Key)
    requires Accounted(bufs, disk, logged, holds, {}) && Coherent(bufs, disk, view) && k in view
    ensures k !in logged ==> k in disk && view[k] == disk[k]
    ensures k in logged ==>
              exists b: nat ::
                b < |bufs| && bufs[b].valid && bufs[b].key == k && bufs[b].refcnt > 0 && view[k] == bufs[b].data
  {
    if Cached(bufs, k) {
      var b: nat :| b < |bufs| && bufs[b].valid && bufs[b].key == k;
      assert view[bufs[b].key] == bufs[b].data;
    }
  }

  /** Taking a reference on the buffer of block k, found in the cache or filled from the disk. */
  lemma ReadAccounted(bufs: seq<Buf>, bufs': seq<Buf>, disk: map<Key, Block>, view: map<Key, Block>, logged: set<Key>,
                      holds: seq<nat>, dirty: set<nat>, b: nat, k: Key)
    requires Accounted(bufs, disk, logged, holds, dirty) && Coherent(bufs, disk, view) && OneCopy(bufs') && k in disk
    requires k.dev != 0
    requires b < |bufs| == |bufs'| && forall i: nat | i < |bufs| && i != b :: bufs'[i] == bufs[i]
    requires bufs'[b].key == k && bufs'[b].valid && bufs'[b].data == view[k]
    requires if bufs[b].key == k then bufs'[b].refcnt == bufs[b].refcnt + 1
             else bufs[b].refcnt == 0 && bufs'[b].refcnt == 1
    ensures Accounted(bufs', disk, logged, holds[b := holds[b] + 1], dirty)
    ensures bufs[b].valid && bufs[b].key in logged ==> bufs[b].key == k && bufs[b].data == view[k]
  {
    forall c: nat | c < |bufs| && bufs[c].valid && c != b
      ensures bufs[c].key != k
    {
      assert bufs'[c] == bufs[c];
    }
    assert bufs[b].valid && bufs[b].key == k <==> Cached(bufs, k);
    forall q | q in logged
      ensures Cached(bufs', q)
    {
      var c: nat :| c < |bufs| && bufs[c].valid && bufs[c].key == q;
      assert bufs'[c].valid && bufs'[c].key == q;
    }
  }

  /** log_write of a block that is not in the log yet. */
  lemma PinAccounted(bufs: seq<Buf>, disk: map<Key, Block>, logged: set<Key>, holds: seq<nat>, dirty: set<nat>, b: nat)
    requires Accounted(bufs, disk, logged, holds, dirty) && OneCopy(bufs) && b < |bufs| && bufs[b].valid
    requires bufs[b].key !in logged
    ensures Accounted(bufs[b := bufs[b].(refcnt := bufs[b].refcnt + 1)], disk, logged + {bufs[b].key}, holds,
                      dirty - {b})
  {
    var bufs' := bufs[b := bufs[b].(refcnt := bufs[b].refcnt + 1)];
    assert bufs'[b].valid && bufs'[b].key == bufs[b].key;
    forall q | q in logged
      ensures Cached(bufs', q)
    {
      var c: nat :| c < |bufs| && bufs[c].valid && bufs[c].key == q;
      assert bufs'[c].valid && bufs'[c].key == q;
    }
  }

  lemma ChangeAccounted(bufs: seq<Buf>, disk: map<Key, Block>, logged: set<Key>, holds: seq<nat>, dirty: set<nat>,
                        b: nat, data: Block)
    requires Accounted(bufs, disk, logged, holds, dirty) && b < |bufs| && bufs[b].valid && holds[b] > 0
    ensures Accounted(bufs[b := bufs[b].(data := data)], disk, logged, holds, dirty + {b}) && bufs[b].refcnt > 0
  {
    SameKeysCached(bufs, bufs[b := bufs[b].(data := data)]);
  }

  lemma ReleaseAccounted(bufs: seq<Buf>, disk: map<Key, Block>, logged: set<Key>, holds: seq<nat>, dirty: set<nat>,
                         b: nat)
    requires Accounted(bufs, disk, logged, holds, dirty) && b < |bufs| && holds[b] > 0 && (b in dirty ==> holds[b] > 1)
    ensures bufs[b].refcnt > 0
    ensures bufs[b].refcnt == 1 && bufs[b].valid ==> bufs[b].key in disk && disk[bufs[b].key] == bufs[b].data
    ensures Accounted(bufs[b := bufs[b].(refcnt := bufs[b].refcnt - 1)], disk, logged, holds[b := holds[b] - 1], dirty)
  {
    SameKeysCached(bufs, bufs[b := bufs[b].(refcnt := bufs[b].refcnt - 1)]);
  }

  lemma AccountedFacts(bufs: seq<Buf>, disk: map<Key, Block>, logged: set<Key>, holds: seq<nat>, dirty: set<nat>)
    requires Accounted(bufs, disk, logged, holds, dirty)
    ensures |holds| == |bufs|
  {
  }

  lemma HeldInUse(bufs: seq<Buf>, disk: map<Key, Block>, logged: set<Key>, holds: seq<nat>, dirty: set<nat>, b: nat)
    requires Accounted(bufs, disk, logged, holds, dirty) && b < |bufs| && holds[b] > 0
    ensures bufs[b].refcnt > 0
  {
  }

  lemma LoggedKey(bufs: seq<Buf>, disk: map<Key, Block>, view: map<Key, Block>, logged: set<Key>, holds: seq<nat>,
                  dirty: set<nat>, k: Key)
    requires Accounted(bufs, disk, logged, holds, dirty) && Coherent(bufs, disk, view) && k in logged && k in disk
    ensures k.dev != 0 && k in view
  {
  }

  lemma HandOver(bufs: seq<Buf>, disk: map<Key, Block>, logged: set<Key>, holds: seq<nat>, dirty: set<nat>, b: nat)
    requires Accounted(bufs, disk, logged, holds, dirty) && b < |bufs| && bufs[b].key in logged
    ensures Accounted(bufs, disk, logged, holds, dirty - {b})
  {
  }

  /** bwrite by a holder: the disk has the buffer's contents now. */
  lemma WriteAccounted(bufs: seq<Buf>, disk: map<Key, Block>, logged: set<Key>, holds: seq<nat>, dirty: set<nat>,
                       b: nat)
    requires Accounted(bufs, disk, logged, holds, dirty) && OneCopy(bufs) && b < |bufs| && bufs[b].valid && holds[b] > 0
    ensures Accounted(bufs, disk[bufs[b].key := bufs[b].data], logged, holds, dirty - {b}) && bufs[b].refcnt > 0
  {
  }

  /** bunpin of a block that has just been written home. */
  lemma UnpinAccounted(bufs: seq<Buf>, disk: map<Key, Block>, logged: set<Key>, holds: seq<nat>, dirty: set<nat>,
                       b: nat)
    requires Accounted(bufs, disk, logged, holds, dirty) && OneCopy(bufs) && b < |bufs| && bufs[b].valid
    requires bufs[b].key in logged
    requires bufs[b].key in disk && disk[bufs[b].key] == bufs[b].data
    ensures bufs[b].refcnt == holds[b] + 1
    ensures Accounted(bufs[b := bufs[b].(refcnt := bufs[b].refcnt - 1)], disk, logged - {bufs[b].key}, holds, dirty)
  {
    SameKeysCached(bufs, bufs[b := bufs[b].(refcnt := bufs[b].refcnt - 1)]);
  }

  /** The contents of a valid buffer are what a reader sees. */
  lemma ViewOfBuffer(bufs: seq<Buf>, disk: map<Key, Block>, view: map<Key, Block>, b: nat)
    requires Coherent(bufs, disk, view) && b < |bufs| && bufs[b].valid
    ensures bufs[b].key in view && bufs[b].key in disk && view[bufs[b].key] == bufs[b].data
  {
  }

  // ---- is there a buffer left? ----

  ghost function Keys(bufs: seq<Buf>): set<Key> {
    set i | 0 <= i < |bufs| :: bufs[i].key
  }

  lemma {:induction false} CountKeys(bufs: seq<Buf>)
    ensures |Keys(bufs)| <= |bufs|
    ensures OneCopy(bufs) && (forall i | 0 <= i < |bufs| :: bufs[i].valid) ==> |Keys(bufs)| == |bufs|
  {
    if bufs == [] {
      assert Keys(bufs) == {};
    } else {
      var last := |bufs| - 1;
      CountKeys(bufs[..last]);
      assert Keys(bufs) == Keys(bufs[..last]) + {bufs[last].key};
    }
  }

  /** Nobody holds a buffer. */
  predicate Idle(holds: seq<nat>) {
    forall i | 0 <= i < |holds| :: holds[i] == 0
  }

  /** When nobody holds a buffer, every buffer is in use exactly when as many blocks are logged. */
  lemma AllPinnedExactlyWhen(bufs: seq<Buf>, disk: map<Key, Block>, logged: set<Key>, holds: seq<nat>, dirty: set<nat>)
    requires Accounted(bufs, disk, logged, holds, dirty) && OneCopy(bufs) && Idle(holds)
    ensures (forall i: nat | i < |bufs| :: bufs[i].refcnt > 0) <==> |logged| >= |bufs|
  {
    if forall i: nat | i < |bufs| :: bufs[i].refcnt > 0 {
      AllPinned(bufs, disk, logged, holds, dirty);
    } else {
      var j: nat :| j < |bufs| && bufs[j].refcnt == 0;
      OneNotPinned(bufs, disk, logged, holds, dirty, j);
    }
  }

  lemma AllPinned(bufs: seq<Buf>, disk: map<Key, Block>, logged: set<Key>, holds: seq<nat>, dirty: set<nat>)
    requires Accounted(bufs, disk, logged, holds, dirty) && OneCopy(bufs) && Idle(holds)
    requires forall i: nat | i < |bufs| :: bufs[i].refcnt > 0
    ensures |logged| >= |bufs|
  {
    forall i: nat | i < |bufs|
      ensures bufs[i].valid && bufs[i].key in logged
    {
      assert bufs[i].refcnt == holds[i] + Pin(bufs[i], logged);
    }
    CountKeys(bufs);
    assert logged == Keys(bufs) + (logged - Keys(bufs));
  }

  lemma OneNotPinned(bufs: seq<Buf>, disk: map<Key, Block>, logged: set<Key>, holds: seq<nat>, dirty: set<nat>, j: nat)
    requires Accounted(bufs, disk, logged, holds, dirty) && OneCopy(bufs) && j < |bufs| && bufs[j].refcnt == 0
    ensures |logged| < |bufs|
  {
    hide Accounted, OneCopy, Keys;
    var others := Seqs.Without(bufs, j);
    forall k | k in logged
      ensures k in Keys(others)
    {
      LoggedElsewhere(bufs, disk, logged, holds, dirty, j, k);
    }
    CountKeys(others);
    assert Keys(others) == logged + (Keys(others) - logged);
  }

  /** The buffer of a logged block is another one than an unused one. */
  lemma LoggedElsewhere(bufs: seq<Buf>, disk: map<Key, Block>, logged: set<Key>, holds: seq<nat>, dirty: set<nat>,
                        j: nat, k: Key)
    requires Accounted(bufs, disk, logged, holds, dirty) && j < |bufs| && bufs[j].refcnt == 0 && k in logged
    ensures k in Keys(Seqs.Without(bufs, j))
  {
    var others := Seqs.Without(bufs, j);
    var c: nat :| c < |bufs| && bufs[c].valid && bufs[c].key == k;
    assert bufs[c].refcnt == holds[c] + Pin(bufs[c], logged);
    assert others[if c < j then c else c - 1] == bufs[c];
  }

  /** A block that is not logged finds no buffer exactly when NBUF blocks are logged. */
  lemma SpareExactlyWhen(bufs: seq<Buf>, disk: map<Key, Block>, logged: set<Key>, holds: seq<nat>, dirty: set<nat>,
                         lk: Key)
    requires Accounted(bufs, disk, logged, holds, dirty) && OneCopy(bufs) && Idle(holds) && lk !in logged
    ensures (forall i | 0 <= i < |bufs| :: bufs[i].key != lk && bufs[i].refcnt > 0) <==> |logged| >= |bufs|
  {
    AllPinnedExactlyWhen(bufs, disk, logged, holds, dirty);
    if |logged| >= |bufs| {
      forall i: nat | i < |bufs|
        ensures bufs[i].key != lk
      {
        assert bufs[i].refcnt == holds[i] + Pin(bufs[i], logged);
      }
    }
  }

  lemma LoggedIsCached(bufs: seq<Buf>, disk: map<Key, Block>, logged: set<Key>, holds: seq<nat>, dirty: set<nat>,
                       k: Key)
    requires Accounted(bufs, disk, logged, holds, dirty) && k in logged
    ensures exists i | 0 <= i < |bufs| :: bufs[i].key == k
  {
    var i :| 0 <= i < |bufs| && bufs[i].valid && bufs[i].key == k;
  }

  class Buffers {
    const cache: Cache
    var logged: set<Key>
    ghost var holds: seq<nat>
    ghost var dirty: set<nat>

    /** At boot nothing is logged and nobody holds a buffer. */
    constructor (cache: Cache)
      requires cache.Valid() && forall i | 0 <= i < NBUF :: cache.buf[i].refcnt == 0
      ensures Valid() && this.cache == cache && logged == {} && dirty == {}
    {
      this.cache, logged, dirty := cache, {}, {};
      holds := seq(NBUF, _ => 0);
    }

    ghost predicate Valid()
      reads this, cache, cache.next, cache.prev, cache.buf
    {
      cache.Valid() && Accounted(cache.buf[..], cache.disk, logged, holds, dirty)
    }

    ghost predicate Holds(b: nat)
      reads this, cache
    {
      |holds| == NBUF && b < NBUF && holds[b] > 0
    }

    /** bread: the latest contents, whoever wrote them; no buffer of a logged block is recycled. */
    method Read(k: Key) returns (b: nat)
      requires Valid() && k.dev != 0 && k in cache.disk
      modifies cache.buf, this`holds
      ensures Valid() && b <= NBUF
      ensures b < NBUF ==> Holds(b) && holds == old(holds)[b := old(holds)[b] + 1]
      ensures b < NBUF ==> cache.buf[b].key == k && cache.buf[b].valid && cache.buf[b].data == cache.view[k]
      ensures b == NBUF ==> holds == old(holds)
      ensures b == NBUF <==> old(forall i | 0 <= i < NBUF :: cache.buf[i].key != k && cache.buf[i].refcnt > 0)
      ensures b < NBUF && old(holds)[b] > 0 ==> old(cache.buf[b].key) == k
      ensures forall i | 0 <= i < NBUF && i != b :: cache.buf[i] == old(cache.buf[i])
      ensures forall i | 0 <= i < NBUF && old(cache.buf[i].valid && cache.buf[i].key in logged) ::
                cache.buf[i].key == old(cache.buf[i].key) && cache.buf[i].data == old(cache.buf[i].data)
    {
      hide Accounted, Coherent, OneCopy, Ring;
      AccountedFacts(cache.buf[..], cache.disk, logged, holds, dirty);
      ghost var before := cache.buf[..];
      b := cache.Bread(k);
      if b < NBUF {
        if holds[b] > 0 { HeldInUse(before, cache.disk, logged, holds, dirty, b); }
        holds := holds[b := holds[b] + 1];
        ReadAccounted(before, cache.buf[..], cache.disk, cache.view, logged, old(holds), dirty, b, k);
      } else {
        assert cache.buf[..] == before;
      }
    }

    /** A holder changes the contents of its buffer. */
    method Change(b: nat, data: Block)
      requires Valid() && Holds(b) && cache.buf[b].valid
      modifies cache.buf, cache`view, this`dirty
      ensures Valid() && cache.view == old(cache.view)[cache.buf[b].key := data] && dirty == old(dirty) + {b}
      ensures cache.buf[..] == old(cache.buf[..])[b := old(cache.buf[b]).(data := data)]
    {
      hide Accounted, Coherent, OneCopy, Ring;
      ChangeAccounted(cache.buf[..], cache.disk, logged, holds, dirty, b, data);
      cache.Modify(b, data);
      dirty := dirty + {b};
    }

    /** log_write: the block is pinned unless the log has it already; now the log answers for the change. */
    method LogWrite(b: nat)
      requires Valid() && Holds(b) && cache.buf[b].valid
      modifies cache.buf, this`logged, this`dirty
      ensures Valid() && logged == old(logged) + {cache.buf[b].key} && dirty == old(dirty) - {b}
      ensures cache.buf[b].key == old(cache.buf[b].key) && cache.buf[b].data == old(cache.buf[b].data)
    {
      hide Accounted, Coherent, OneCopy, Ring;
      if cache.buf[b].key !in logged {
        PinAccounted(cache.buf[..], cache.disk, logged, holds, dirty, b);
        cache.Bpin(b);
        logged := logged + {cache.buf[b].key};
      } else {
        HandOver(cache.buf[..], cache.disk, logged, holds, dirty, b);
      }
      dirty := dirty - {b};
      assert logged == old(logged) + {cache.buf[b].key};
    }

    /** brelse: the holder lets go. The last holder has handed its changes to the log. */
    method Release(b: nat)
      requires Valid() && Holds(b) && (b in dirty ==> holds[b] > 1)
      modifies cache.buf, cache.next, cache.prev, cache`list, this`holds
      ensures Valid() && holds == old(holds)[b := old(holds)[b] - 1]
    {
      hide Accounted, Coherent, OneCopy, Ring;
      ReleaseAccounted(cache.buf[..], cache.disk, logged, holds, dirty, b);
      cache.Brelse(b);
      holds := holds[b := holds[b] - 1];
    }

    /** bwrite: a holder writes its buffer to the disk, which then lacks nothing of it. */
    method WriteOut(b: nat)
      requires Valid() && Holds(b) && cache.buf[b].valid
      modifies cache`disk, this`dirty
      ensures Valid() && dirty == old(dirty) - {b}
      ensures cache.disk == old(cache.disk)[cache.buf[b].key := cache.buf[b].data]
    {
      hide Accounted, Coherent, OneCopy, Ring;
      WriteAccounted(cache.buf[..], cache.disk, logged, holds, dirty, b);
      cache.Bwrite(b);
      dirty := dirty - {b};
    }

    /** The middle of one turn of install_trans outside recovery: the log block in lb is copied to the home
        buffer b, which goes to the disk, and the pin is given up. */
    method Install(lb: nat, b: nat)
      requires Valid() && Holds(lb) && Holds(b) && lb != b && cache.buf[lb].valid
      requires cache.buf[b].valid && cache.buf[b].key in logged
      modifies cache.buf, cache`disk, cache`view, this`logged, this`dirty
      ensures Valid() && logged == old(logged) - {cache.buf[b].key} && dirty == old(dirty) - {b}
      ensures cache.buf[b].key == old(cache.buf[b].key) && cache.buf[lb] == old(cache.buf[lb])
      ensures cache.buf[b].data == cache.buf[lb].data
      ensures cache.disk == old(cache.disk)[cache.buf[b].key := cache.buf[lb].data]
      ensures cache.view == old(cache.view)[cache.buf[b].key := cache.buf[lb].data]
      ensures old(cache.buf[lb].data == cache.buf[b].data) ==> cache.view == old(cache.view)
    {
      hide Accounted, Coherent, OneCopy, Ring;
      ViewOfBuffer(cache.buf[..], cache.disk, cache.view, b);
      Change(b, cache.buf[lb].data);
      WriteOut(b);
      UnpinAccounted(cache.buf[..], cache.disk, logged, holds, dirty, b);
      cache.Bunpin(b);
      logged := logged - {cache.buf[b].key};
      assert dirty == old(dirty) - {b};
    }

    /** One turn of write_log: the pinned contents of block k go to the log block lk on the disk. While nobody
        holds a buffer, it finds one for the log block exactly when fewer than NBUF blocks are logged. */
    method CopyToLog(k: Key, lk: Key) returns (panicked: bool)
      requires Valid() && dirty == {} && k in logged && k in cache.disk && lk in cache.disk && lk.dev != 0
      requires lk !in logged
      modifies cache.buf, cache.next, cache.prev, cache`list, cache`disk, cache`view, this`holds, this`dirty
      ensures !panicked ==> Valid() && dirty == {} && logged == old(logged) && holds == old(holds)
      ensures !panicked ==> k in old(cache.view) && cache.disk == old(cache.disk)[lk := old(cache.view)[k]]
      ensures !panicked ==> cache.view == old(cache.view)[lk := old(cache.view)[k]]
      ensures old(Idle(holds)) ==> (panicked <==> |old(logged)| >= NBUF)
    {
      hide Accounted, Coherent, OneCopy, Ring;
      AccountedFacts(cache.buf[..], cache.disk, logged, holds, dirty);
      LoggedKey(cache.buf[..], cache.disk, cache.view, logged, holds, dirty, k);
      if Idle(holds) { SpareExactlyWhen(cache.buf[..], cache.disk, logged, holds, dirty, lk); }
      var to := Read(lk);
      if to == NBUF {
        return true;
      }
      LoggedIsCached(cache.buf[..], cache.disk, logged, holds, dirty, k);
      var from := Read(k);
      Change(to, cache.buf[from].data);
      WriteOut(to);
      assert dirty == {};
      Release(from);
      Release(to);
      assert |holds| == |old(holds)| && forall i | 0 <= i < NBUF :: holds[i] == old(holds)[i];
      panicked := false;
    }
  }
}
