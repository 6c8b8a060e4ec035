/**
 The buffer cache (kernel/bio.c): NBUF buffers on a circular doubly linked list
 ordered by recent use. A buffer pointer is an index, and HEAD is bcache.head.
 */
module Bcache {
  import opened Blocks
  import opened Seqs

  const NBUF: nat := 30
  const HEAD: nat := NBUF

  /** A (device, block number) pair. */
  datatype Key = Key(dev: nat, blockno: nat)

  datatype Buf = Buf(key: Key, refcnt: nat, valid: bool, data: Block)

  // ---- the list ----

  ghost predicate Links(next: seq<nat>, prev: seq<nat>, cycle: seq<nat>)
    requires |next| == |prev| == NBUF + 1
  {
    && (forall i | 0 <= i < |cycle| :: cycle[i] <= NBUF)
    && forall i, j | 0 <= i && j == i + 1 && j < |cycle| ::
         next[cycle[i]] == cycle[j] && prev[cycle[j]] == cycle[i]
  }

  /** next and prev thread exactly `list`, from most to least recently used, through HEAD. */
  ghost predicate Ring(next: seq<nat>, prev: seq<nat>, list: seq<nat>) {
    && |next| == |prev| == NBUF + 1
    && Links(next, prev, [HEAD] + list + [HEAD])
    && Distinct(list) && forall i | 0 <= i < |list| :: list[i] < NBUF
  }

  /** The two assignments that unlink a buffer. */
  lemma UnlinkKeepsRing(next: seq<nat>, prev: seq<nat>, list: seq<nat>, k: nat)
    requires Ring(next, prev, list) && k < |list|
    ensures var b := list[k];
            && next[b] <= NBUF && prev[b] <= NBUF
            && Ring(next[prev[b] := next[b]], prev[next[b] := prev[b]], Without(list, k))
            && b !in Without(list, k)
  {
    var b, cycle := list[k], [HEAD] + list + [HEAD];
    CycleApart(list);
    assert cycle[k + 1] == b;
    assert next[b] == cycle[k + 2] && prev[b] == cycle[k];
    assert [HEAD] + Without(list, k) + [HEAD] == Without(cycle, k + 1);
    UnlinkKeepsLinks(next, prev, cycle, k);
  }

  /** The cycle without its element at k + 1. */
  lemma UnlinkKeepsLinks(next: seq<nat>, prev: seq<nat>, cycle: seq<nat>, k: nat)
    requires |next| == |prev| == NBUF + 1 && Links(next, prev, cycle) && Apart(cycle) && k + 2 < |cycle|
    ensures Links(next[cycle[k] := cycle[k + 2]], prev[cycle[k + 2] := cycle[k]], Without(cycle, k + 1))
  {
    var small := Without(cycle, k + 1);
    var next', prev' := next[cycle[k] := cycle[k + 2]], prev[cycle[k + 2] := cycle[k]];
    forall i, j | 0 <= i && j == i + 1 && j < |small|
      ensures next'[small[i]] == small[j] && prev'[small[j]] == small[i]
    {
      if i != k {
        var i' := if i < k then i else i + 1;
        assert next[cycle[i']] == cycle[i' + 1] && prev[cycle[i' + 1]] == cycle[i'];
        assert cycle[i'] != cycle[k] && cycle[i' + 1] != cycle[k + 2];
      }
    }
  }

  ghost predicate Apart(cycle: seq<nat>) {
    forall i, j | 0 <= i < j < |cycle| && (0 < i || j < |cycle| - 1) :: cycle[i] != cycle[j]
  }

  /** The list elements and HEAD differ wherever they do not both stand for HEAD. */
  lemma CycleApart(list: seq<nat>)
    requires Distinct(list) && forall i | 0 <= i < |list| :: list[i] < NBUF
    ensures Apart([HEAD] + list + [HEAD])
  {
  }

  /** The four assignments that put a buffer right after HEAD. */
  lemma InsertKeepsRing(next: seq<nat>, prev: seq<nat>, list: seq<nat>, b: nat)
    requires Ring(next, prev, list) && b < NBUF && b !in list
    ensures next[HEAD] <= NBUF
    ensures Ring(next[b := next[HEAD]][HEAD := b], prev[b := HEAD][next[HEAD] := b], [b] + list)
  {
    var cycle, big := [HEAD] + list + [HEAD], [HEAD] + ([b] + list) + [HEAD];
    assert cycle[0] == HEAD && next[HEAD] == cycle[1];
    assert forall i | 0 <= i < |big| :: big[i] == if i == 0 then HEAD else if i == 1 then b else cycle[i - 1];
  }

  // ---- what the cache stands for ----

  /** The cache and the disk together stand for the block contents `view`. */
  ghost predicate Coherent(bufs: seq<Buf>, disk: map<Key, Block>, view: map<Key, Block>) {
    && disk.Keys == view.Keys
    && (forall i | 0 <= i < |bufs| && bufs[i].valid ::
          bufs[i].key in view && view[bufs[i].key] == bufs[i].data)
    && (forall k | k in disk && !Cached(bufs, k) :: view[k] == disk[k])
    && (forall i | 0 <= i < |bufs| && bufs[i].valid && bufs[i].refcnt == 0 ::
          bufs[i].key in disk && disk[bufs[i].key] == bufs[i].data)
  }

  ghost predicate Cached(bufs: seq<Buf>, k: Key) {
    exists i :: 0 <= i < |bufs| && bufs[i].valid && bufs[i].key == k
  }

  /** No two buffers hold the same block; buffers never used have device 0. */
  ghost predicate OneCopy(bufs: seq<Buf>) {
    && (forall i | 0 <= i < |bufs| && bufs[i].valid :: bufs[i].key.dev != 0)
    && (forall i, j | 0 <= i < j < |bufs| && bufs[i].key.dev != 0 :: bufs[i].key != bufs[j].key)
  }

  /** Recycling an unused buffer loses nothing: what it held is on disk. */
  lemma RecycleKeepsView(bufs: seq<Buf>, disk: map<Key, Block>, view: map<Key, Block>, b: nat, k: Key)
    requires Coherent(bufs, disk, view) && OneCopy(bufs) && b < |bufs| && bufs[b].refcnt == 0
    requires k.dev != 0 && forall i | 0 <= i < |bufs| :: bufs[i].key != k
    ensures var after := bufs[b := bufs[b].(key := k, valid := false, refcnt := 1)];
            Coherent(after, disk, view) && OneCopy(after)
  {
    var after := bufs[b := bufs[b].(key := k, valid := false, refcnt := 1)];
    forall i | 0 <= i < |bufs| && bufs[i].valid && i != b
      ensures Cached(after, bufs[i].key)
    {
      assert after[i] == bufs[i];
    }
  }

  /** Reading a block into a buffer that holds no contents yet. */
  lemma FillKeepsView(bufs: seq<Buf>, disk: map<Key, Block>, view: map<Key, Block>, b: nat)
    requires Coherent(bufs, disk, view) && OneCopy(bufs) && b < |bufs| && !bufs[b].valid
    requires bufs[b].key.dev != 0 && bufs[b].key in disk
    ensures var after := bufs[b := bufs[b].(data := disk[bufs[b].key], valid := true)];
            Coherent(after, disk, view) && OneCopy(after)
            && view[bufs[b].key] == disk[bufs[b].key]
  {
    var k := bufs[b].key;
    assert !Cached(bufs, k);
    var after := bufs[b := bufs[b].(data := disk[k], valid := true)];
    forall i | 0 <= i < |bufs| && bufs[i].valid
      ensures Cached(after, bufs[i].key)
    {
      assert after[i].valid && after[i].key == bufs[i].key;
    }
  }

  /** Changing the contents or count of a buffer that stays in use, or is clean. */
  lemma TouchKeepsView(bufs: seq<Buf>, disk: map<Key, Block>, view: map<Key, Block>, b: nat, refcnt: nat, data: Block)
    requires Coherent(bufs, disk, view) && OneCopy(bufs) && b < |bufs|
    requires bufs[b].valid || data == bufs[b].data
    requires refcnt > 0 || (bufs[b].valid ==> disk[bufs[b].key] == data)
    ensures var after := bufs[b := bufs[b].(refcnt := refcnt, data := data)];
            && OneCopy(after)
            && Coherent(after, disk, if bufs[b].valid then view[bufs[b].key := data] else view)
  {
    hide Cached;
    var after := bufs[b := bufs[b].(refcnt := refcnt, data := data)];
    SameKeysCached(bufs, after);
    assert bufs[b].valid ==> Cached(bufs, bufs[b].key) by {
      if bufs[b].valid { IsCached(bufs, b); }
    }
  }

  lemma IsCached(bufs: seq<Buf>, b: nat)
    requires b < |bufs| && bufs[b].valid
    ensures Cached(bufs, bufs[b].key)
  {
  }

  /** Which blocks are cached depends on the keys alone. */
  lemma SameKeysCached(bufs: seq<Buf>, after: seq<Buf>)
    requires |after| == |bufs|
    requires forall i | 0 <= i < |bufs| :: after[i].key == bufs[i].key && after[i].valid == bufs[i].valid
    ensures forall k :: Cached(after, k) <==> Cached(bufs, k)
  {
    forall k
      ensures Cached(after, k) <==> Cached(bufs, k)
    {
      if Cached(bufs, k) {
        var i :| 0 <= i < |bufs| && bufs[i].valid && bufs[i].key == k;
        assert after[i].valid && after[i].key == k;
      }
    }
  }

  /** Writing a buffer out makes it clean and changes nothing a reader can see. */
  lemma FlushKeepsView(bufs: seq<Buf>, disk: map<Key, Block>, view: map<Key, Block>, b: nat)
    requires Coherent(bufs, disk, view) && OneCopy(bufs) && b < |bufs| && bufs[b].valid
    ensures Coherent(bufs, disk[bufs[b].key := bufs[b].data], view)
  {
    assert Cached(bufs, bufs[b].key);
  }

  class Cache {
    const next: array<nat>
    const prev: array<nat>
    const buf: array<Buf>
    var disk: map<Key, Block>
    ghost var list: seq<nat>
    ghost var view: map<Key, Block>

    ghost predicate Shape()
      reads this
    {
      next.Length == prev.Length == NBUF + 1 && buf.Length == NBUF && next != prev
    }

    ghost predicate Valid()
      reads this, next, prev, buf
    {
      && Shape()
      && Ring(next[..], prev[..], list) && |list| == NBUF
      && Coherent(buf[..], disk, view) && OneCopy(buf[..])
    }

    /** binit: every buffer is put on the list, unused and empty. */
    constructor (contents: map<Key, Block>)
      ensures Valid() && fresh(next) && fresh(prev) && fresh(buf)
      ensures disk == view == contents
      ensures forall i | 0 <= i < NBUF :: buf[i].refcnt == 0
    {
      next := new nat[NBUF + 1](_ => HEAD);
      prev := new nat[NBUF + 1](_ => HEAD);
      buf := new Buf[NBUF](_ => Buf(Key(0, 0), 0, false, ZeroBlock()));
      disk := contents;
      view := contents;
      list := [];
      new;
      for b := 0 to NBUF
        invariant Shape() && fresh(next) && fresh(prev) && fresh(buf)
        invariant disk == view == contents
        invariant forall i | 0 <= i < NBUF :: buf[i] == Buf(Key(0, 0), 0, false, ZeroBlock())
        invariant Ring(next[..], prev[..], list) && |list| == b
        invariant forall i | 0 <= i < b :: list[i] < b
      {
        InsertFront(b);
      }
    }

    method InsertFront(b: nat)
      requires Shape() && Ring(next[..], prev[..], list) && b < NBUF && b !in list
      modifies next, prev, this`list
      ensures Ring(next[..], prev[..], list) && list == [b] + old(list)
    {
      InsertKeepsRing(next[..], prev[..], list, b);
      var first := next[HEAD];
      next[b] := first;
      prev[b] := HEAD;
      prev[first] := b;
      next[HEAD] := b;
      list := [b] + list;
      assert next[..] == old(next[..])[b := first][HEAD := b];
      assert prev[..] == old(prev[..])[b := HEAD][first := b];
    }

    method MoveToFront(b: nat)
      requires Shape() && Ring(next[..], prev[..], list) && |list| == NBUF && b < NBUF
      modifies next, prev, this`list
      ensures Ring(next[..], prev[..], list) && |list| == NBUF
      ensures exists k :: 0 <= k < NBUF && old(list)[k] == b && list == [b] + Without(old(list), k)
    {
      ghost var k := Position(list, b);
      UnlinkKeepsRing(next[..], prev[..], list, k);
      var after, before := next[b], prev[b];
      prev[after] := before;
      next[before] := after;
      assert next[..] == old(next[..])[before := after];
      assert prev[..] == old(prev[..])[after := before];
      list := Without(list, k);
      InsertFront(b);
    }

    /** Look for a cached copy of the block, scanning from the most recently used buffer. */
    method Find(k: Key) returns (b: nat)
      requires Valid()
      ensures b <= NBUF
      ensures b < NBUF ==> buf[b].key == k
      ensures b == NBUF ==> forall i | 0 <= i < NBUF :: buf[i].key != k
    {
      b := next[HEAD];
      ghost var cycle, at := [HEAD] + list + [HEAD], 1;
      assert cycle[0] == HEAD && cycle[1] == next[cycle[0]];
      while b != HEAD && buf[b].key != k
        invariant 1 <= at < |cycle| && b == cycle[at]
        invariant forall i | 1 <= i < at :: cycle[i] < NBUF && buf[cycle[i]].key != k
        decreases |cycle| - at
      {
        at := at + 1;
        assert cycle[at] == next[cycle[at - 1]];
        b := next[b];
      }
      if b == HEAD {
        forall i | 0 <= i < NBUF
          ensures buf[i].key != k
        {
          ghost var p := Position(list, i);
          assert cycle[p + 1] == i;
        }
      }
    }

    /** Look for an unused buffer, scanning from the least recently used one. */
    method FindUnused() returns (b: nat)
      requires Valid()
      ensures b <= NBUF
      ensures b < NBUF ==> buf[b].refcnt == 0
      ensures b < NBUF ==> exists k :: 0 <= k < NBUF && list[k] == b && LeastRecent(list, buf[..], k)
      ensures b == NBUF ==> forall i | 0 <= i < NBUF :: buf[i].refcnt > 0
    {
      b := prev[HEAD];
      ghost var cycle, at := [HEAD] + list + [HEAD], NBUF;
      assert cycle[NBUF + 1] == HEAD && cycle[NBUF] == prev[cycle[NBUF + 1]];
      while b != HEAD && buf[b].refcnt != 0
        invariant 0 <= at <= NBUF && b == cycle[at]
        invariant forall i | at <= i < NBUF :: buf[list[i]].refcnt > 0
        decreases at
      {
        at := at - 1;
        assert cycle[at] == prev[cycle[at + 1]];
        assert b == list[at];
        b := prev[b];
      }
      if b == HEAD {
        forall i | 0 <= i < NBUF
          ensures buf[i].refcnt > 0
        {
          ghost var p := Position(list, i);
          assert list[p] == i;
        }
      } else {
        assert list[at - 1] == b && LeastRecent(list, buf[..], at - 1);
      }
    }

    /** bget: the buffer of block k, taken from the cache or recycled; None when it must panic. */
    method Bget(k: Key) returns (b: nat, recycled: bool)
      requires Valid() && k.dev != 0
      modifies buf
      ensures Valid()
      ensures b <= NBUF && (b == NBUF <==> old(forall i | 0 <= i < NBUF :: buf[i].key != k && buf[i].refcnt > 0))
      ensures b == NBUF ==> buf[..] == old(buf[..])
      ensures b < NBUF && !recycled ==>
                old(buf[b].key) == k && buf[..] == old(buf[..])[b := old(buf[b]).(refcnt := old(buf[b]).refcnt + 1)]
      ensures b < NBUF && recycled ==> old(buf[b].refcnt) == 0
      ensures b < NBUF && recycled ==> buf[..] == old(buf[..])[b := old(buf[b]).(key := k, valid := false, refcnt := 1)]
      ensures b < NBUF && recycled ==> exists p :: 0 <= p < NBUF && list[p] == b && LeastRecent(list, old(buf[..]), p)
    {
      recycled := false;
      b := Find(k);
      if b < NBUF {
        SetCount(b, buf[b].refcnt + 1);
        return;
      }
      b := FindUnused();
      if b < NBUF {
        RecycleKeepsView(buf[..], disk, view, b, k);
        buf[b] := buf[b].(key := k, valid := false, refcnt := 1);
        assert buf[..] == old(buf[..])[b := old(buf[b]).(key := k, valid := false, refcnt := 1)];
        recycled := true;
      }
    }

    /** bread: a buffer with the latest contents of block k. A buffer in use is never taken away. */
    method Bread(k: Key) returns (b: nat)
      requires Valid() && k.dev != 0 && k in disk
      modifies buf
      ensures Valid()
      ensures b <= NBUF && (b == NBUF <==> old(forall i | 0 <= i < NBUF :: buf[i].key != k && buf[i].refcnt > 0))
      ensures b == NBUF ==> buf[..] == old(buf[..])
      ensures b < NBUF ==> buf[b].key == k && buf[b].valid && buf[b].refcnt > 0 && buf[b].data == view[k]
      ensures forall i | 0 <= i < NBUF && i != b :: buf[i] == old(buf[i])
      ensures b < NBUF && old(buf[b]).key == k ==>
                buf[b].refcnt == old(buf[b]).refcnt + 1 && (old(buf[b]).valid ==> buf[b].data == old(buf[b]).data)
      ensures b < NBUF && old(buf[b]).key != k ==> old(buf[b]).refcnt == 0 && buf[b].refcnt == 1
    {
      var recycled;
      b, recycled := Bget(k);
      if b < NBUF && !buf[b].valid {
        FillKeepsView(buf[..], disk, view, b);
        ghost var before := buf[..];
        buf[b] := buf[b].(data := disk[k], valid := true);
        assert buf[..] == before[b := before[b].(data := disk[k], valid := true)];
      }
    }

    /** The holder of a buffer stores new contents in it. */
    method Modify(b: nat, data: Block)
      requires Valid() && b < NBUF && buf[b].refcnt > 0 && buf[b].valid
      modifies buf, this`view
      ensures Valid() && view == old(view)[old(buf[b]).key := data]
      ensures buf[..] == old(buf[..])[b := old(buf[b]).(data := data)]
    {
      TouchKeepsView(buf[..], disk, view, b, buf[b].refcnt, data);
      view := view[buf[b].key := data];
      buf[b] := buf[b].(data := data);
      assert buf[..] == old(buf[..])[b := old(buf[b]).(data := data)];
    }

    /** bwrite: the disk gets the buffer's contents. */
    method Bwrite(b: nat)
      requires Valid() && b < NBUF && buf[b].refcnt > 0 && buf[b].valid
      modifies this`disk
      ensures Valid() && disk == old(disk)[buf[b].key := buf[b].data]
    {
      FlushKeepsView(buf[..], disk, view, b);
      disk := disk[buf[b].key := buf[b].data];
    }

    /** The reference about to be dropped is not the last one on contents the disk lacks. */
    ghost predicate MayDrop(b: nat)
      requires b < NBUF && Shape()
      reads this, buf
    {
      || buf[b].refcnt > 1
      || (buf[b].refcnt == 1 && (buf[b].valid ==> buf[b].key in disk && disk[buf[b].key] == buf[b].data))
    }

    /** brelse: an unused buffer becomes the most recently used one. */
    method Brelse(b: nat)
      requires Valid() && b < NBUF && MayDrop(b)
      modifies buf, next, prev, this`list
      ensures Valid()
      ensures buf[..] == old(buf[..])[b := old(buf[b]).(refcnt := old(buf[b]).refcnt - 1)]
      ensures buf[b].refcnt > 0 ==> list == old(list)
      ensures buf[b].refcnt == 0 ==>
                exists k :: 0 <= k < NBUF && old(list)[k] == b && list == [b] + Without(old(list), k)
    {
      Bunpin(b);
      if buf[b].refcnt == 0 {
        MoveToFront(b);
      }
    }

    /** bpin: log_write keeps a logged buffer from being recycled. */
    method Bpin(b: nat)
      requires Valid() && b < NBUF
      modifies buf
      ensures Valid()
      ensures buf[..] == old(buf[..])[b := old(buf[b]).(refcnt := old(buf[b]).refcnt + 1)]
    {
      SetCount(b, buf[b].refcnt + 1);
    }

    method Bunpin(b: nat)
      requires Valid() && b < NBUF && MayDrop(b)
      modifies buf
      ensures Valid()
      ensures buf[..] == old(buf[..])[b := old(buf[b]).(refcnt := old(buf[b]).refcnt - 1)]
    {
      SetCount(b, buf[b].refcnt - 1);
    }

    method SetCount(b: nat, refcnt: nat)
      requires Valid() && b < NBUF
      requires refcnt > 0 || (buf[b].valid ==> buf[b].key in disk && disk[buf[b].key] == buf[b].data)
      modifies buf
      ensures Valid() && buf[..] == old(buf[..])[b := old(buf[b]).(refcnt := refcnt)]
    {
      TouchKeepsView(buf[..], disk, view, b, refcnt, buf[b].data);
      assert buf[b].valid ==> view[buf[b].key := buf[b].data] == view;
      buf[b] := buf[b].(refcnt := refcnt);
      assert buf[..] == old(buf[..])[b := old(buf[b]).(refcnt := refcnt)];
    }
  }

  /** Everything after position k, that is less recently used, is in use. */
  ghost predicate LeastRecent(list: seq<nat>, bufs: seq<Buf>, k: nat) {
    && k < |list| && (forall i | 0 <= i < |list| :: list[i] < |bufs|)
    && bufs[list[k]].refcnt == 0
    && forall i | k < i < |list| :: bufs[list[i]].refcnt > 0
  }

  ghost function Position(list: seq<nat>, b: nat): (k: nat)
    requires Distinct(list) && |list| == NBUF && (forall i | 0 <= i < NBUF :: list[i] < NBUF) && b < NBUF
    ensures k < NBUF && list[k] == b
  {
    Pigeonhole(list, NBUF, b);
    var k :| 0 <= k < |list| && list[k] == b;
    k
  }
}
