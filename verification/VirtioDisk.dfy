/**
 The virtio disk driver (kernel/virtio_disk.c): allocating and freeing
 descriptors, offering requests, and the interrupt handler, next to a device
 that completes requests in any order.
 */
module VirtioDisk {
  import opened Virtqueue

  const NONE: Desc := Desc(Nowhere, 0, 0, 0)

  class Disk {
    var free: seq<bool>
    var desc: seq<Desc>
    var info: seq<Info>
    var ops: seq<Op>
    var availRing: seq<nat>
    var availIdx: nat
    var usedRing: seq<nat>
    var deviceIdx: nat
    var usedIdx: nat
    var busy: set<nat>
    ghost var owner: seq<int>
    ghost var reqs: map<nat, Request>
    ghost var posted: seq<nat>
    var taken: nat  // how many requests the device has fetched
    ghost var done: seq<nat>
    ghost var seen: nat

    ghost function Q(): Queue
      reads this
    {
      Queue(free, desc, info, ops, availRing, availIdx, usedRing, deviceIdx, usedIdx, busy,
            owner, reqs, posted, taken, done, seen)
    }

    /** virtio_disk_init: all descriptors are free. */
    constructor ()
      ensures Inv(Q()) && reqs == map[] && busy == {} && free == seq(NUM, _ => true)
    {
      free, desc, info := seq(NUM, _ => true), seq(NUM, _ => NONE), seq(NUM, _ => Info(-1, 0));
      ops, availRing, usedRing := seq(NUM, _ => Op(0, 0)), seq(NUM, _ => 0), seq(NUM, _ => 0);
      availIdx, deviceIdx, usedIdx, busy := 0, 0, 0, {};
      owner, reqs, posted, taken, done, seen := seq(NUM, _ => -1), map[], [], 0, [], 0;
    }

    /** alloc_desc: the first free descriptor, -1 if there is none. */
    method AllocDesc() returns (i: int)
      requires |free| == NUM
      modifies this`free
      ensures i == -1 ==> free == old(free) && forall k | 0 <= k < NUM :: !free[k]
      ensures i != -1 ==> 0 <= i < NUM && old(free)[i] && free == old(free)[i := false]
    {
      i := 0;
      while i < NUM
        invariant 0 <= i <= NUM && free == old(free) && forall k | 0 <= k < i :: !free[k]
      {
        if free[i] {
          free := free[i := false];
          return;
        }
        i := i + 1;
      }
      i := -1;
    }

    /** free_desc: panics exactly for a descriptor out of range or free already. */
    method FreeDesc(i: nat) returns (panicked: bool)
      requires |free| == NUM && |desc| == NUM
      modifies this`free, this`desc
      ensures panicked <==> i >= NUM || old(free)[i]
      ensures panicked ==> free == old(free) && desc == old(desc)
      ensures !panicked ==> free == old(free)[i := true] && desc == old(desc)[i := NONE]
    {
      if i >= NUM || free[i] {
        return true;
      }
      desc := desc[i := NONE];
      free := free[i := true];
      panicked := false;
    }

    /** alloc3_desc: three descriptors, or -1 with those already taken given back. */
    method Alloc3Desc() returns (ok: bool, idx: seq<nat>)
      requires |free| == NUM && |desc| == NUM
      modifies this`free, this`desc
      ensures ok ==> |idx| == 3 && idx[0] < NUM && idx[1] < NUM && idx[2] < NUM
                     && idx[0] != idx[1] && idx[0] != idx[2] && idx[1] != idx[2]
                     && old(free)[idx[0]] && old(free)[idx[1]] && old(free)[idx[2]]
                     && free == old(free)[idx[0] := false][idx[1] := false][idx[2] := false] && desc == old(desc)
      ensures !ok ==> free == old(free) && |desc| == NUM
      ensures !ok ==> forall k | 0 <= k < NUM && !free[k] :: desc[k] == old(desc)[k]
      ensures !ok ==> forall a, b, c | 0 <= a < b < c < NUM :: !(free[a] && free[b] && free[c])
    {
      idx := [];
      var i := 0;
      while i < 3
        invariant 0 <= i <= 3 && |idx| == i && desc == old(desc) && |free| == NUM
        invariant forall j | 0 <= j < i :: idx[j] < NUM && old(free)[idx[j]]
        invariant forall j, k | 0 <= j < k < i :: idx[j] != idx[k]
        invariant forall k | 0 <= k < NUM :: free[k] == (old(free)[k] && k !in idx)
      {
        var d := AllocDesc();
        if d < 0 {
          GiveBack(idx, old(free), old(desc));
          return false, idx;
        }
        idx := idx + [d];
        i := i + 1;
      }
      ok := true;
      assert free == old(free)[idx[0] := false][idx[1] := false][idx[2] := false];
    }

    /** The loop that gives descriptors back. */
    method GiveBack(idx: seq<nat>, ghost free0: seq<bool>, ghost desc0: seq<Desc>)
      requires |free| == NUM && |desc| == NUM && |free0| == NUM && desc == desc0
      requires forall j | 0 <= j < |idx| :: idx[j] < NUM && free0[idx[j]]
      requires forall j, k | 0 <= j < k < |idx| :: idx[j] != idx[k]
      requires forall k | 0 <= k < NUM :: free[k] == (free0[k] && k !in idx)
      modifies this`free, this`desc
      ensures free == free0 && |desc| == NUM && forall k | 0 <= k < NUM && !free0[k] :: desc[k] == desc0[k]
    {
      var j := 0;
      while j < |idx|
        invariant 0 <= j <= |idx| && |free| == NUM && |desc| == NUM
        invariant forall k | 0 <= k < NUM :: free[k] == (free0[k] && k !in idx[j..])
        invariant forall k | 0 <= k < NUM && !free0[k] :: desc[k] == desc0[k]
      {
        assert idx[j..] == [idx[j]] + idx[j + 1..];
        var panicked := FreeDesc(idx[j]);
        j := j + 1;
      }
    }

    /** The first half of virtio_disk_rw: the index of the request's first descriptor, or -1 when there are
        fewer than three free descriptors and the process has to sleep. */
    method StartRequest(buf: nat, write: bool, blockno: nat) returns (head: int, ghost d1: nat, ghost d2: nat)
      requires Inv(Q()) && forall g: nat | g in reqs :: reqs[g].buf != buf
      modifies this
      ensures Inv(Q())
      ensures head != -1 ==> 0 <= head && Available(old(Q()), head, d1, d2)
                             && Q() == Submitted(old(Q()), head, d1, d2, buf, write, blockno)
      ensures head != -1 ==> Asks(Q(), head, buf, write, blockno) && busy == old(busy) + {buf}
      ensures head != -1 ==> head in reqs && reqs == old(reqs)[head := reqs[head]] && reqs[head].phase == Offered
      ensures head != -1 ==> reqs[head].buf == buf && reqs[head].write == write && reqs[head].blockno == blockno
      ensures head != -1 ==> |availRing| == NUM && availRing[old(availIdx) % NUM] == head
      ensures head != -1 ==> availIdx == (old(availIdx) + 1) % TWO16 && posted == old(posted) + [head]
      ensures head == -1 ==> reqs == old(reqs) && busy == old(busy) && free == old(free) && posted == old(posted)
                             && forall a, b, c | 0 <= a < b < c < NUM :: !(free[a] && free[b] && free[c])
    {
      hide Inv, Submitted, Asks, Counters;
      ghost var q := Q();
      InvFacts(q);
      var ok, idx := Alloc3Desc();
      d1, d2 := 0, 0;
      if !ok {
        FreeDescsDoNotMatter(q, Q());
        return -1, 0, 0;
      }
      var h, i1, i2 := idx[0], idx[1], idx[2];
      d1, d2 := i1, i2;
      SubmitKeeps(q, h, i1, i2, buf, write, blockno);
      TakenFirst(q, Q(), h, i1, i2, buf, write, blockno);
      Offer(h, i1, i2, buf, write, blockno);
      SubmittedAsks(q, h, i1, i2, buf, write, blockno);
      SubmittedRecord(q, h, i1, i2, buf, write, blockno);
      head := h;
    }

    /** The request is written into its three descriptors. */
    method Format(h: nat, i1: nat, i2: nat, buf: nat, write: bool, blockno: nat)
      requires |desc| == NUM && |ops| == NUM && |info| == NUM && h < NUM && i1 < NUM && i2 < NUM
      modifies this`ops, this`desc, this`info
      ensures ops == old(ops)[h := Op(if write then 1 else 0, blockno * (BSIZE / 512))]
      ensures info == old(info)[h := Info(buf, 0xff)]
      ensures desc == old(desc)[h := Desc(Header(h), 16, NEXT, i1)]
                               [i1 := Desc(Data(buf), BSIZE, if write then NEXT else WRITE + NEXT, i2)]
                               [i2 := Desc(StatusOf(h), 1, WRITE, 0)]
    {
      ops := ops[h := Op(if write then 1 else 0, blockno * (BSIZE / 512))];
      desc := desc[h := Desc(Header(h), 16, NEXT, i1)];
      desc := desc[i1 := Desc(Data(buf), BSIZE, if write then NEXT else WRITE + NEXT, i2)];
      desc := desc[i2 := Desc(StatusOf(h), 1, WRITE, 0)];
      info := info[h := Info(buf, 0xff)];
    }

    /** The request is written into its three descriptors and offered. */
    method Offer(h: nat, i1: nat, i2: nat, buf: nat, write: bool, blockno: nat)
      requires Sizes(Q()) && Counters(Q()) && h < NUM && i1 < NUM && i2 < NUM
      modifies this
      ensures free == old(free) && Q() == Submitted(old(Q()), h, i1, i2, buf, write, blockno).(free := free)
    {
      Format(h, i1, i2, buf, write, blockno);
      WrapKeepsIndex(|posted|);
      busy := busy + {buf};
      availRing := availRing[availIdx % NUM := h];
      availIdx := (availIdx + 1) % TWO16;
      owner := owner[h := h][i1 := h][i2 := h];
      reqs := reqs[h := Request(i1, i2, buf, write, blockno, Offered)];
      posted := posted + [h];
    }

    /** The device fetches the next chain: it is a well-formed request, offered and not fetched before. */
    method FetchRequest() returns (head: nat)
      requires Inv(Q()) && taken < |posted|
      modifies this`taken, this`reqs
      ensures Inv(Q()) && head == posted[old(taken)] && Q() == Fetched(old(Q()))
      ensures head in old(reqs) && old(reqs)[head].phase == Offered && Formatted(old(Q()), head)
      ensures Asks(Q(), head, reqs[head].buf, reqs[head].write, reqs[head].blockno)
      ensures reqs == old(reqs)[head := old(reqs)[head].(phase := AtDevice)] && taken == old(taken) + 1
    {
      hide Inv, Formatted;
      InvFacts(Q());
      FetchKeeps(Q());
      ChainDescs(Q(), posted[taken]);
      head := availRing[taken % NUM];
      reqs := InPhase(Q(), posted[taken], AtDevice);
      taken := taken + 1;
    }

    /** The device completes any request it has. */
    method CompleteRequest(h: nat, status: nat)
      requires Inv(Q()) && h in reqs && reqs[h].phase == AtDevice
      modifies this
      ensures h < NUM && Inv(Q()) && Q() == CompletedBy(old(Q()), h, status)
      ensures |info| == NUM && info[h].status == status && reqs == old(reqs)[h := old(reqs)[h].(phase := Completed)]
      ensures |usedRing| == NUM && usedRing[old(deviceIdx) % NUM] == h && deviceIdx == (old(deviceIdx) + 1) % TWO16
    {
      hide Inv;
      InvFacts(Q());
      HeadInRange(Q(), h);
      CompleteKeeps(Q(), h, status);
      WrapKeepsIndex(|done|);
      info := info[h := info[h].(status := status)];
      usedRing := usedRing[deviceIdx % NUM := h];
      deviceIdx := (deviceIdx + 1) % TWO16;
      reqs := InPhase(Q(), h, Completed);
      done := done + [h];
    }

    /** virtio_disk_intr: every completion not seen before clears the flag of its own buffer, and nothing
        else changes. Those noticed had status 0; the panic is for the first that has not. */
    method Intr() returns (panicked: bool)
      requires Inv(Q())
      modifies this
      ensures Inv(Q()) && Noticed(old(Q()), Q())
      ensures !panicked ==> seen == |done|
      ensures panicked ==> seen < |done| && done[seen] < |info| && info[done[seen]].status != 0
      ensures AllZero(info, done, old(seen), seen)
    {
      hide Inv, Noticed;
      panicked := false;
      ghost var q0 := Q();
      NoticedNothing(q0);
      SeenTest(Q());
      while usedIdx != deviceIdx
        invariant Inv(Q()) && Noticed(q0, Q()) && seen <= |done| && old(seen) <= seen
        invariant done == q0.done && info == q0.info && AllZero(info, done, old(seen), seen)
        invariant usedIdx == deviceIdx <==> seen == |done|
        decreases |done| - seen
      {
        NoticedMore(q0, Q());
        panicked := NoticeOne();
        if panicked {
          return;
        }
        SeenTest(Q());
      }
    }

    /** One turn of the loop. */
    method NoticeOne() returns (panicked: bool)
      requires Inv(Q()) && seen < |done|
      modifies this
      ensures old(done)[old(seen)] in old(reqs) && Inv(Q())
      ensures if panicked then Q() == old(Q()) else Q() == Seen(old(Q()))
      ensures done == old(done) && info == old(info) && done[old(seen)] < |info|
      ensures panicked <==> info[done[old(seen)]].status != 0
    {
      hide Inv;
      InvFacts(Q());
      SeeKeeps(Q());
      WrapKeepsIndex(seen);
      var id := usedRing[usedIdx % NUM];
      panicked := info[id].status != 0;
      if panicked {
        return;
      }
      busy := busy - {info[id].b};
      usedIdx := (usedIdx + 1) % TWO16;
      reqs := InPhase(Q(), id, Finished);
      seen := seen + 1;
    }

    /** The end of virtio_disk_rw, once its buffer's flag is clear. */
    method FinishRequest(h: nat) returns (panicked: bool)
      requires Inv(Q()) && h in reqs && reqs[h].buf !in busy
      modifies this
      ensures !panicked && h < NUM && old(reqs)[h].d1 < NUM && old(reqs)[h].d2 < NUM
      ensures Inv(Q()) && Q() == Retired(old(Q()), h)
      ensures |old(free)| == NUM && free == old(free)[h := true][old(reqs)[h].d1 := true][old(reqs)[h].d2 := true]
      ensures reqs.Keys == old(reqs).Keys - {h} && busy == old(busy)
      ensures forall g | g in reqs :: reqs[g] == old(reqs)[g]
    {
      hide Inv;
      ghost var q := Q();
      InvFacts(q);
      FlagClear(q, h);
      RetireKeeps(q, h);
      ChainDescs(q, h);
      info := info[h := info[h].(b := -1)];
      panicked := FreeChain(h, reqs[h].d1, reqs[h].d2);
      owner := owner[h := -1][reqs[h].d1 := -1][reqs[h].d2 := -1];
      reqs := map g | g in reqs && g != h :: reqs[g];
    }

    /** free_chain: the three descriptors of a chain are freed, and the panics are out of reach. */
    method FreeChain(h: nat, ghost d1: nat, ghost d2: nat) returns (panicked: bool)
      requires |free| == NUM && |desc| == NUM && h < NUM && d1 < NUM && d2 < NUM && h != d1 && h != d2 && d1 != d2
      requires !free[h] && !free[d1] && !free[d2]
      requires desc[h].flags % 2 == 1 && desc[h].next == d1 && desc[d1].flags % 2 == 1 && desc[d1].next == d2
      requires desc[d2].flags % 2 == 0
      modifies this`free, this`desc
      ensures !panicked && free == old(free)[h := true][d1 := true][d2 := true]
      ensures desc == old(desc)[h := NONE][d1 := NONE][d2 := NONE]
    {
      var i := h;
      ghost var n := 0;
      while true
        invariant 0 <= n <= 2 && i == (if n == 0 then h else if n == 1 then d1 else d2)
        invariant free == (if n == 0 then old(free) else if n == 1 then old(free)[h := true]
                           else old(free)[h := true][d1 := true])
        invariant desc == (if n == 0 then old(desc) else if n == 1 then old(desc)[h := NONE]
                           else old(desc)[h := NONE][d1 := NONE])
        decreases 2 - n
      {
        var flag, nxt := desc[i].flags, desc[i].next;
        panicked := FreeDesc(i);
        if panicked {
          return;
        }
        if flag % 2 == 1 {
          i := nxt;
          n := n + 1;
        } else {
          break;
        }
      }
    }
  }

  lemma InvFacts(q: Queue)
    requires Inv(q)
    ensures Sizes(q) && Counters(q)
  {
  }

  /** The contents of free descriptors do not matter. */
  lemma FreeDescsDoNotMatter(q: Queue, q': Queue)
    requires Inv(q) && |q'.desc| == NUM && q' == q.(desc := q'.desc)
    requires forall k | 0 <= k < NUM && !q.free[k] :: q'.desc[k] == q.desc[k]
    ensures Inv(q')
  {
    forall h: nat | h in q'.reqs
      ensures ChainOk(q', h) && Formatted(q', h)
    {
      assert ChainOk(q, h) && Formatted(q, h);
    }
  }

  /** It makes no difference that the descriptors are taken before the request is written out. */
  lemma TakenFirst(q: Queue, q1: Queue, h: nat, d1: nat, d2: nat, buf: nat, write: bool, blockno: nat)
    requires Sizes(q) && Counters(q) && h < NUM && d1 < NUM && d2 < NUM
    requires q1 == q.(free := q.free[h := false][d1 := false][d2 := false])
    ensures Sizes(q1) && Counters(q1)
    ensures Submitted(q1, h, d1, d2, buf, write, blockno).(free := q1.free)
            == Submitted(q, h, d1, d2, buf, write, blockno)
  {
  }

  /** What else the driver records of a request. */
  lemma SubmittedRecord(q: Queue, h: nat, d1: nat, d2: nat, buf: nat, write: bool, blockno: nat)
    requires Sizes(q) && Counters(q) && h < NUM && d1 < NUM && d2 < NUM
    ensures var q' := Submitted(q, h, d1, d2, buf, write, blockno);
            && q'.busy == q.busy + {buf} && q'.posted == q.posted + [h]
            && q'.reqs == q.reqs[h := Request(d1, d2, buf, write, blockno, Offered)]
            && |q'.availRing| == NUM && q'.availRing[q.availIdx % NUM] == h && q'.availIdx == (q.availIdx + 1) % TWO16
  {
    WrapKeepsIndex(|q.posted|);
  }

  /** Completions have been noticed: their requests are finished and their buffers free of the disk. */
  ghost predicate Noticed(q: Queue, q': Queue) {
    && q'.done == q.done && q'.posted == q.posted && q'.taken == q.taken && q.seen <= q'.seen <= |q.done|
    && q'.free == q.free && q'.desc == q.desc && q'.info == q.info && q'.reqs.Keys == q.reqs.Keys && q'.busy <= q.busy
    && (forall h: nat | h in q.reqs && !IsNoticed(q, q', h) :: q'.reqs[h] == q.reqs[h])
    && (forall h: nat | h in q.reqs && IsNoticed(q, q', h) ::
          q.reqs[h].phase == Completed && q'.reqs[h] == q.reqs[h].(phase := Finished) && q'.reqs[h].buf !in q'.busy)
  }

  /** The completions numbered lo to hi had status 0. */
  predicate AllZero(info: seq<Info>, done: seq<nat>, lo: nat, hi: nat) {
    hi <= |done| && forall k | lo <= k < hi :: done[k] < |info| && info[done[k]].status == 0
  }

  ghost predicate IsNoticed(q: Queue, q': Queue, h: nat) {
    exists k: nat :: q.seen <= k < q'.seen && k < |q.done| && q.done[k] == h
  }

  lemma NoticedNothing(q: Queue)
    requires Inv(q)
    ensures Noticed(q, q)
  {
  }

  lemma NoticedMore(q0: Queue, q: Queue)
    requires Inv(q0) && Inv(q) && Noticed(q0, q) && q.seen < |q.done|
    ensures q.done[q.seen] in q.reqs && Noticed(q0, Seen(q))
  {
    hide OwnersOk, ReqsOk, BusyOk, Counters;
    var h, q' := q.done[q.seen], Seen(q);
    assert IsNoticed(q0, q', h);
    assert !IsNoticed(q0, q, h);
    forall g: nat | g in q0.reqs && g != h
      ensures IsNoticed(q0, q', g) <==> IsNoticed(q0, q, g)
    {
      if IsNoticed(q0, q, g) {
        var k: nat :| q0.seen <= k < q.seen && k < |q0.done| && q0.done[k] == g;
        assert q0.seen <= k < q'.seen && q0.done[k] == g;
      }
    }
  }

  /** The comparison of wrapped counters tells whether there are completions not seen yet. */
  lemma SeenTest(q: Queue)
    requires Inv(q)
    ensures q.usedIdx == q.deviceIdx <==> q.seen == |q.done|
  {
    WindowShort(q, q.usedRing, q.done, q.seen, Completed);
    WrappedTest(q.seen, |q.done|);
  }

  lemma FlagClear(q: Queue, h: nat)
    requires Inv(q) && h in q.reqs && q.reqs[h].buf !in q.busy
    ensures q.reqs[h].phase == Finished
  {
  }

  lemma ChainDescs(q: Queue, h: nat)
    requires Inv(q) && h in q.reqs
    ensures ChainOk(q, h) && Formatted(q, h) && !q.free[h] && !q.free[q.reqs[h].d1] && !q.free[q.reqs[h].d2]
  {
  }
}
