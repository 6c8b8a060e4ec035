/**
 The split virtqueue of the disk driver (kernel/virtio_disk.c; sections 2.6 and
 5.2 of VIRTIO v1.1) as a value: what driver and device share, what the driver
 remembers, and a record of every request in flight.
 */
module Virtqueue {
  import opened Seqs

  const NUM: nat := 8
  const TWO16: nat := 0x1_0000
  const BSIZE: nat := 1024
  const NEXT: nat := 1   // VRING_DESC_F_NEXT
  const WRITE: nat := 2  // VRING_DESC_F_WRITE

  /** What a descriptor points to: a command header, a buffer's data or a status byte. */
  datatype Addr = Nowhere | Header(i: nat) | Data(buf: nat) | StatusOf(i: nat)

  datatype Desc = Desc(addr: Addr, len: nat, flags: nat, next: nat)

  /** A command header: 1 (VIRTIO_BLK_T_OUT) to write the disk, 0 (VIRTIO_BLK_T_IN) to read it. */
  datatype Op = Op(kind: nat, sector: nat)

  /** The buffer of a request (-1: none) and the status byte the device writes. */
  datatype Info = Info(b: int, status: nat)

  /** Where a request is: in the avail ring, at the device, in the used ring, or seen by the driver. */
  datatype Phase = Offered | AtDevice | Completed | Finished

  datatype Request = Request(d1: nat, d2: nat, buf: nat, write: bool, blockno: nat, phase: Phase)

  datatype Queue = Queue(
    free: seq<bool>, desc: seq<Desc>, info: seq<Info>, ops: seq<Op>,
    availRing: seq<nat>, availIdx: nat, usedRing: seq<nat>, deviceIdx: nat, usedIdx: nat,
    busy: set<nat>,        // the buffers with b->disk == 1
    owner: seq<int>,       // the head of the chain a descriptor is in, -1 if none
    reqs: map<nat, Request>,
    posted: seq<nat>, taken: nat,  // all heads ever offered, and how many the device has fetched
    done: seq<nat>, seen: nat)     // all heads ever completed, and how many the driver has seen

  ghost predicate Sizes(q: Queue) {
    && |q.free| == NUM && |q.desc| == NUM && |q.info| == NUM && |q.ops| == NUM
    && |q.availRing| == NUM && |q.usedRing| == NUM && |q.owner| == NUM
  }

  /** Descriptor i is in the chain of request r with head h. */
  predicate InChain(h: nat, r: Request, i: nat) {
    i == h || i == r.d1 || i == r.d2
  }

  predicate OwnedByReq(reqs: map<nat, Request>, owner: int, i: nat) {
    owner >= 0 && (var h: nat := owner; h in reqs && InChain(h, reqs[h], i))
  }

  /** A descriptor is free exactly when no request has it. */
  ghost predicate OwnersOk(q: Queue)
    requires Sizes(q)
  {
    forall i: nat | i < NUM ::
      && (q.free[i] <==> q.owner[i] == -1)
      && (q.owner[i] != -1 ==> OwnedByReq(q.reqs, q.owner[i], i))
  }

  /** A request has three descriptors of its own. */
  ghost predicate ChainOk(q: Queue, h: nat)
    requires Sizes(q) && h in q.reqs
  {
    var r := q.reqs[h];
    && h < NUM && r.d1 < NUM && r.d2 < NUM && h != r.d1 && h != r.d2 && r.d1 != r.d2
    && q.owner[h] == h && q.owner[r.d1] == h && q.owner[r.d2] == h
  }

  /** The chain is the request the device expects: a header, the block, and a status byte. */
  ghost predicate Formatted(q: Queue, h: nat)
    requires Sizes(q) && h in q.reqs
  {
    var r := q.reqs[h];
    && h < NUM && r.d1 < NUM && r.d2 < NUM
    && q.desc[h] == Desc(Header(h), 16, NEXT, r.d1)
    && q.ops[h] == Op(if r.write then 1 else 0, r.blockno * (BSIZE / 512))
    && q.desc[r.d1] == Desc(Data(r.buf), BSIZE, if r.write then NEXT else WRITE + NEXT, r.d2)
    && q.desc[r.d2] == Desc(StatusOf(h), 1, WRITE, 0)
    && q.info[h].b == r.buf && (r.phase in {Offered, AtDevice} ==> q.info[h].status == 0xff)
  }

  ghost predicate ReqsOk(q: Queue)
    requires Sizes(q)
  {
    forall h: nat | h in q.reqs :: ChainOk(q, h) && Formatted(q, h)
  }

  /** Entries lo to |log| of a ring are the heads logged, distinct, and of requests in this phase. */
  ghost predicate Window(q: Queue, ring: seq<nat>, log: seq<nat>, lo: nat, phase: Phase) {
    && |ring| == NUM && lo <= |log|
    && (forall k: nat | lo <= k < |log| :: log[k] in q.reqs && q.reqs[log[k]].phase == phase && ring[k % NUM] == log[k])
    && (forall j: nat, k: nat | lo <= j < k < |log| :: log[j] != log[k])
  }

  /** A buffer's disk flag is set exactly while its request is not finished; a buffer has one request. */
  ghost predicate BusyOk(q: Queue) {
    && (forall h: nat | h in q.reqs :: q.reqs[h].buf in q.busy <==> q.reqs[h].phase != Finished)
    && (forall g: nat, h: nat | g in q.reqs && h in q.reqs && g != h :: q.reqs[g].buf != q.reqs[h].buf)
    && (forall b | b in q.busy :: exists h: nat :: h in q.reqs && q.reqs[h].buf == b)
  }

  ghost predicate Counters(q: Queue) {
    && q.availIdx == |q.posted| % TWO16 && q.deviceIdx == |q.done| % TWO16 && q.usedIdx == q.seen % TWO16
    && q.taken <= |q.posted| && q.seen <= |q.done|
  }

  ghost predicate Inv(q: Queue) {
    && Sizes(q) && OwnersOk(q) && ReqsOk(q) && BusyOk(q) && Counters(q)
    && Window(q, q.availRing, q.posted, q.taken, Offered)
    && Window(q, q.usedRing, q.done, q.seen, Completed)
  }

  // ---- at most two requests at a time ----

  ghost function OwnedBy(q: Queue, hs: set<nat>): set<nat>
    requires Sizes(q)
  {
    set i: nat | i < NUM && q.owner[i] in hs
  }

  lemma {:induction false} ThreeEach(q: Queue, hs: set<nat>)
    requires Sizes(q) && OwnersOk(q) && ReqsOk(q) && hs <= q.reqs.Keys
    ensures |OwnedBy(q, hs)| == 3 * |hs|
    decreases |hs|
  {
    if hs == {} {
      assert OwnedBy(q, hs) == {};
    } else {
      var h :| h in hs;
      var r := q.reqs[h];
      assert ChainOk(q, h);
      ThreeEach(q, hs - {h});
      OwnedByOne(q, hs, h);
    }
  }

  lemma OwnedByOne(q: Queue, hs: set<nat>, h: nat)
    requires Sizes(q) && OwnersOk(q) && h in q.reqs && h in hs && ChainOk(q, h)
    ensures |OwnedBy(q, hs)| == |OwnedBy(q, hs - {h})| + 3
  {
    var r := q.reqs[h];
    assert OwnedBy(q, hs) == OwnedBy(q, hs - {h}) + {h, r.d1, r.d2};
    assert OwnedBy(q, hs - {h}) !! {h, r.d1, r.d2};
    assert |{h, r.d1, r.d2}| == 3;
  }

  lemma {:induction false} SubsetCard(a: set<nat>, b: set<nat>)
    requires a <= b
    ensures |a| <= |b|
    decreases |a|
  {
    if a != {} {
      var x :| x in a;
      SubsetCard(a - {x}, b - {x});
    }
  }

  /** Eight descriptors are enough for two requests at most. */
  lemma AtMostTwo(q: Queue)
    requires Sizes(q) && OwnersOk(q) && ReqsOk(q)
    ensures |q.reqs| <= NUM / 3
  {
    ThreeEach(q, q.reqs.Keys);
    var all: set<nat> := {0, 1, 2, 3, 4, 5, 6, 7};
    assert OwnedBy(q, q.reqs.Keys) <= all;
    SubsetCard(OwnedBy(q, q.reqs.Keys), all);
    assert |q.reqs| == |q.reqs.Keys|;
  }

  lemma {:induction false} DistinctCard(s: seq<nat>, hs: set<nat>)
    requires Distinct(s) && forall i | 0 <= i < |s| :: s[i] in hs
    ensures |s| <= |hs|
    decreases |s|
  {
    if s != [] {
      var x := s[|s| - 1];
      DistinctCard(s[..|s| - 1], hs - {x});
    }
  }

  /** So a ring never holds more than two entries that are still wanted. */
  lemma WindowShort(q: Queue, ring: seq<nat>, log: seq<nat>, lo: nat, phase: Phase)
    requires Sizes(q) && OwnersOk(q) && ReqsOk(q) && Window(q, ring, log, lo, phase)
    ensures |log| - lo <= NUM / 3
  {
    AtMostTwo(q);
    DistinctCard(log[lo..], q.reqs.Keys);
    assert |q.reqs| == |q.reqs.Keys|;
  }

  // ---- counters that wrap at 2^16 ----

  lemma WrapKeepsIndex(n: nat)
    ensures n % TWO16 % NUM == n % NUM && (n % TWO16 + 1) % TWO16 == (n + 1) % TWO16
  {
    var k, r := n / TWO16, n % TWO16;
    assert n == NUM * (k * (TWO16 / NUM)) + r;
    SameIndex(k * (TWO16 / NUM), r);
  }

  lemma SameIndex(k: int, r: nat)
    ensures (NUM * k + r) % NUM == r % NUM
  {
    assert NUM * k + r == NUM * (k + r / NUM) + r % NUM;
  }

  lemma WrappedTest(seen: nat, done: nat)
    requires seen <= done <= seen + NUM
    ensures seen % TWO16 == done % TWO16 <==> seen == done
  {
    assert done % TWO16 == (seen % TWO16 + (done - seen)) % TWO16;
  }

  lemma DistinctPlaces(j: nat, k: nat)
    requires j < k < j + NUM
    ensures j % NUM != k % NUM
  {
  }

  // ---- steps ----

  /** The request in virtio_disk_rw is written out and offered to the device. */
  function Submitted(q: Queue, h: nat, d1: nat, d2: nat, buf: nat, write: bool, blockno: nat): Queue
    requires Sizes(q) && h < NUM && d1 < NUM && d2 < NUM
  {
    Queue(q.free[h := false][d1 := false][d2 := false],
          q.desc[h := Desc(Header(h), 16, NEXT, d1)]
                [d1 := Desc(Data(buf), BSIZE, if write then NEXT else WRITE + NEXT, d2)]
                [d2 := Desc(StatusOf(h), 1, WRITE, 0)],
          q.info[h := Info(buf, 0xff)],
          q.ops[h := Op(if write then 1 else 0, blockno * (BSIZE / 512))],
          q.availRing[|q.posted| % NUM := h], (|q.posted| + 1) % TWO16, q.usedRing, q.deviceIdx, q.usedIdx,
          q.busy + {buf}, q.owner[h := h][d1 := h][d2 := h],
          q.reqs[h := Request(d1, d2, buf, write, blockno, Offered)], q.posted + [h], q.taken, q.done, q.seen)
  }

  /** Three free descriptors. */
  predicate Available(q: Queue, h: nat, d1: nat, d2: nat) {
    && h < |q.free| && d1 < |q.free| && d2 < |q.free| && q.free[h] && q.free[d1] && q.free[d2]
    && h != d1 && h != d2 && d1 != d2
  }

  /** What the chain at this head tells the device, read as section 5.2.6 of VIRTIO v1.1 says: a header
      with the command and the sector, then BSIZE bytes of the buffer, which the device writes when it
      reads the disk and only then, then a status byte for it to write. */
  predicate Asks(q: Queue, head: int, buf: nat, write: bool, blockno: nat) {
    && 0 <= head < |q.desc| && head < |q.ops| && q.desc[head].next < |q.desc|
    && var data := q.desc[q.desc[head].next];
       && data.next < |q.desc|
       && var status := q.desc[data.next];
          && q.ops[head].kind == (if write then 1 else 0) && q.ops[head].sector == 2 * blockno
          && q.desc[head].addr == Header(head) && q.desc[head].len == 16 && q.desc[head].flags == NEXT
          && data.addr == Data(buf) && data.len == 1024
          && Has(data.flags, NEXT) && (Has(data.flags, WRITE) <==> !write)
          && status.addr == StatusOf(head) && status.len == 1 && Has(status.flags, WRITE) && !Has(status.flags, NEXT)
  }

  /** The flag is set; flags are powers of two. */
  predicate Has(flags: nat, flag: nat)
    requires flag > 0
  {
    flags / flag % 2 == 1
  }

  lemma SubmittedAsks(q: Queue, h: nat, d1: nat, d2: nat, buf: nat, write: bool, blockno: nat)
    requires Sizes(q) && Available(q, h, d1, d2)
    ensures Asks(Submitted(q, h, d1, d2, buf, write, blockno), h, buf, write, blockno)
  {
  }

  /** A well-formed chain asks for what its request says. */
  lemma FormattedAsks(q: Queue, h: nat)
    requires Sizes(q) && h in q.reqs && Formatted(q, h)
    ensures Asks(q, h, q.reqs[h].buf, q.reqs[h].write, q.reqs[h].blockno)
  {
  }

  lemma SubmitKeepsWindow(q: Queue, h: nat, d1: nat, d2: nat, buf: nat, write: bool, blockno: nat)
    requires Inv(q) && Available(q, h, d1, d2)
    ensures var q' := Submitted(q, h, d1, d2, buf, write, blockno);
            && Window(q', q'.availRing, q'.posted, q'.taken, Offered)
            && Window(q', q'.usedRing, q'.done, q'.seen, Completed)
  {
    hide BusyOk, Counters, Formatted;
    NotAHead(q, h);
    WindowShort(q, q.availRing, q.posted, q.taken, Offered);
    var q' := Submitted(q, h, d1, d2, buf, write, blockno);
    forall k: nat | q.taken <= k < |q.posted|
      ensures q'.availRing[k % NUM] == q.posted[k]
    {
      DistinctPlaces(k, |q.posted|);
    }
  }

  /** A free descriptor is not the head of a request. */
  lemma NotAHead(q: Queue, h: nat)
    requires Sizes(q) && OwnersOk(q) && ReqsOk(q) && h < NUM && q.free[h]
    ensures h !in q.reqs
  {
    assert h in q.reqs ==> ChainOk(q, h);
  }

  lemma SubmitKeepsReq(q: Queue, h: nat, d1: nat, d2: nat, buf: nat, write: bool, blockno: nat, g: nat)
    requires Sizes(q) && OwnersOk(q) && Available(q, h, d1, d2) && g in q.reqs && g != h && ChainOk(q, g)
    requires Formatted(q, g)
    ensures var q' := Submitted(q, h, d1, d2, buf, write, blockno); ChainOk(q', g) && Formatted(q', g)
  {
  }

  lemma SubmitKeepsOwners(q: Queue, h: nat, d1: nat, d2: nat, buf: nat, write: bool, blockno: nat)
    requires Sizes(q) && OwnersOk(q) && Available(q, h, d1, d2) && h !in q.reqs
    ensures OwnersOk(Submitted(q, h, d1, d2, buf, write, blockno))
  {
  }

  lemma NewReq(q: Queue, h: nat, d1: nat, d2: nat, buf: nat, write: bool, blockno: nat)
    requires Sizes(q) && Available(q, h, d1, d2)
    ensures var q' := Submitted(q, h, d1, d2, buf, write, blockno); ChainOk(q', h) && Formatted(q', h)
  {
  }

  lemma SubmitKeepsChains(q: Queue, h: nat, d1: nat, d2: nat, buf: nat, write: bool, blockno: nat)
    requires Inv(q) && Available(q, h, d1, d2)
    ensures var q' := Submitted(q, h, d1, d2, buf, write, blockno); Sizes(q') && OwnersOk(q') && ReqsOk(q')
  {
    hide BusyOk, Counters, Window, OwnersOk, Formatted;
    NotAHead(q, h);
    SubmitKeepsOwners(q, h, d1, d2, buf, write, blockno);
    NewReq(q, h, d1, d2, buf, write, blockno);
    var q' := Submitted(q, h, d1, d2, buf, write, blockno);
    forall g: nat | g in q'.reqs
      ensures ChainOk(q', g) && Formatted(q', g)
    {
      if g != h {
        SubmitKeepsReq(q, h, d1, d2, buf, write, blockno, g);
      }
    }
  }

  lemma SubmitKeepsBusy(q: Queue, h: nat, d1: nat, d2: nat, buf: nat, write: bool, blockno: nat)
    requires Inv(q) && Available(q, h, d1, d2) && forall g: nat | g in q.reqs :: q.reqs[g].buf != buf
    ensures BusyOk(Submitted(q, h, d1, d2, buf, write, blockno))
    ensures Counters(Submitted(q, h, d1, d2, buf, write, blockno))
  {
    hide Window, Formatted;
    NotAHead(q, h);
    var q' := Submitted(q, h, d1, d2, buf, write, blockno);
    forall b | b in q'.busy
      ensures exists g: nat :: g in q'.reqs && q'.reqs[g].buf == b
    {
      if b == buf {
        assert h in q'.reqs && q'.reqs[h].buf == b;
      } else {
        var g: nat :| g in q.reqs && q.reqs[g].buf == b;
        assert g in q'.reqs && q'.reqs[g].buf == b;
      }
    }
  }

  /** A request in its place, with everything else as it was. */
  lemma SubmitKeeps(q: Queue, h: nat, d1: nat, d2: nat, buf: nat, write: bool, blockno: nat)
    requires Inv(q) && Available(q, h, d1, d2) && forall g: nat | g in q.reqs :: q.reqs[g].buf != buf
    ensures Inv(Submitted(q, h, d1, d2, buf, write, blockno))
  {
    hide OwnersOk, ReqsOk, BusyOk, Counters, Window;
    SubmitKeepsWindow(q, h, d1, d2, buf, write, blockno);
    SubmitKeepsChains(q, h, d1, d2, buf, write, blockno);
    SubmitKeepsBusy(q, h, d1, d2, buf, write, blockno);
  }

  function InPhase(q: Queue, h: nat, phase: Phase): map<nat, Request>
    requires h in q.reqs
  {
    q.reqs[h := q.reqs[h].(phase := phase)]
  }

  /** The device fetches the next entry of the avail ring. */
  function Fetched(q: Queue): Queue
    requires q.taken < |q.posted| && q.posted[q.taken] in q.reqs
  {
    q.(reqs := InPhase(q, q.posted[q.taken], AtDevice), taken := q.taken + 1)
  }

  lemma FetchKeeps(q: Queue)
    requires Inv(q) && q.taken < |q.posted|
    ensures q.availRing[q.taken % NUM] in q.reqs && q.availRing[q.taken % NUM] == q.posted[q.taken]
    ensures q.reqs[q.posted[q.taken]].phase == Offered && Inv(Fetched(q))
  {
    hide OwnersOk, ReqsOk, BusyOk;
    var h := q.posted[q.taken];
    assert q.availRing[q.taken % NUM] == h;
    MoveKeepsReqs(q, Fetched(q), h, AtDevice);
    MoveKeepsBusy(q, Fetched(q), h, AtDevice);
  }

  /** The request moves on between driver and device; nothing but its info entry may change. */
  ghost predicate Moved(q: Queue, q': Queue, h: nat, phase: Phase) {
    && h in q.reqs && q'.reqs == InPhase(q, h, phase) && q.reqs[h].phase != Finished
    && q'.free == q.free && q'.desc == q.desc && q'.ops == q.ops && q'.owner == q.owner && q'.busy == q.busy
    && |q'.info| == |q.info|
    && (forall i | 0 <= i < |q.info| :: q'.info[i].b == q.info[i].b && (i != h ==> q'.info[i] == q.info[i]))
    && (phase == Completed || (phase == AtDevice && q'.info == q.info && q.reqs[h].phase == Offered))
  }

  lemma MoveKeepsReqs(q: Queue, q': Queue, h: nat, phase: Phase)
    requires Sizes(q) && OwnersOk(q) && ReqsOk(q) && Sizes(q') && Moved(q, q', h, phase)
    ensures OwnersOk(q') && ReqsOk(q')
  {
    forall g: nat | g in q'.reqs
      ensures ChainOk(q', g) && Formatted(q', g)
    {
      assert ChainOk(q, g) && Formatted(q, g);
    }
  }

  lemma MoveKeepsBusy(q: Queue, q': Queue, h: nat, phase: Phase)
    requires BusyOk(q) && Moved(q, q', h, phase)
    ensures BusyOk(q')
  {
    forall b | b in q'.busy
      ensures exists g: nat :: g in q'.reqs && q'.reqs[g].buf == b
    {
      var g: nat :| g in q.reqs && q.reqs[g].buf == b;
      assert g in q'.reqs && q'.reqs[g].buf == b;
    }
  }

  /** The device completes request h, in any order: it writes the status byte and the next used entry. */
  function CompletedBy(q: Queue, h: nat, status: nat): Queue
    requires Sizes(q) && h in q.reqs && h < NUM
  {
    q.(reqs := InPhase(q, h, Completed), info := q.info[h := q.info[h].(status := status)],
       usedRing := q.usedRing[|q.done| % NUM := h], deviceIdx := (|q.done| + 1) % TWO16, done := q.done + [h])
  }

  lemma CompleteKeeps(q: Queue, h: nat, status: nat)
    requires Inv(q) && h in q.reqs && h < NUM && q.reqs[h].phase == AtDevice
    ensures Inv(CompletedBy(q, h, status))
  {
    hide OwnersOk, ReqsOk, BusyOk;
    var q' := CompletedBy(q, h, status);
    MoveKeepsReqs(q, q', h, Completed);
    MoveKeepsBusy(q, q', h, Completed);
    WindowShort(q, q.usedRing, q.done, q.seen, Completed);
    forall k: nat | q.seen <= k < |q.done|
      ensures q'.usedRing[k % NUM] == q.done[k]
    {
      DistinctPlaces(k, |q.done|);
    }
  }

  /** One turn of the loop in virtio_disk_intr: the request's buffer is no longer busy. */
  function Seen(q: Queue): Queue
    requires q.seen < |q.done| && q.done[q.seen] in q.reqs
  {
    var h := q.done[q.seen];
    q.(reqs := InPhase(q, h, Finished), busy := q.busy - {q.reqs[h].buf}, usedIdx := (q.seen + 1) % TWO16,
       seen := q.seen + 1)
  }

  lemma SeeKeeps(q: Queue)
    requires Inv(q) && q.seen < |q.done|
    ensures q.done[q.seen] in q.reqs && q.usedRing[q.seen % NUM] == q.done[q.seen] && q.done[q.seen] < NUM
    ensures q.info[q.done[q.seen]].b == q.reqs[q.done[q.seen]].buf
    ensures q.reqs[q.done[q.seen]].buf in q.busy && Inv(Seen(q))
  {
    hide OwnersOk;
    var h := q.done[q.seen];
    assert q.usedRing[q.seen % NUM] == h;
    assert ChainOk(q, h) && Formatted(q, h);
    SeeKeepsAll(q);
  }

  lemma SeeKeepsAll(q: Queue)
    requires Inv(q) && q.seen < |q.done| && q.done[q.seen] in q.reqs
    ensures Inv(Seen(q))
  {
    hide OwnersOk, ReqsOk, BusyOk, Window;
    SeeKeepsReqs(q);
    SeeKeepsBusy(q);
    SeeKeepsWindows(q);
  }

  lemma SeeKeepsWindows(q: Queue)
    requires Inv(q) && q.seen < |q.done| && q.done[q.seen] in q.reqs
    ensures var q' := Seen(q);
            && Window(q', q'.availRing, q'.posted, q'.taken, Offered)
            && Window(q', q'.usedRing, q'.done, q'.seen, Completed)
  {
    hide OwnersOk, ReqsOk, BusyOk, Counters;
  }

  lemma SeeKeepsReqs(q: Queue)
    requires Inv(q) && q.seen < |q.done| && q.done[q.seen] in q.reqs
    ensures OwnersOk(Seen(q)) && ReqsOk(Seen(q))
  {
    hide BusyOk, Counters, Window;
    var q' := Seen(q);
    forall g: nat | g in q'.reqs
      ensures ChainOk(q', g) && Formatted(q', g)
    {
      assert ChainOk(q, g) && Formatted(q, g);
    }
  }

  lemma SeeKeepsBusy(q: Queue)
    requires Inv(q) && q.seen < |q.done| && q.done[q.seen] in q.reqs
    ensures BusyOk(Seen(q))
  {
    hide OwnersOk, ReqsOk, Counters;
    var h, q' := q.done[q.seen], Seen(q);
    forall b | b in q'.busy
      ensures exists g: nat :: g in q'.reqs && q'.reqs[g].buf == b
    {
      var g: nat :| g in q.reqs && q.reqs[g].buf == b;
      assert g in q'.reqs && q'.reqs[g].buf == b;
    }
  }

  /** The end of virtio_disk_rw: the chain of a finished request is freed. */
  function Retired(q: Queue, h: nat): Queue
    requires Sizes(q) && h in q.reqs && h < NUM && q.reqs[h].d1 < NUM && q.reqs[h].d2 < NUM
  {
    var d1, d2, none := q.reqs[h].d1, q.reqs[h].d2, Desc(Nowhere, 0, 0, 0);
    q.(free := q.free[h := true][d1 := true][d2 := true],
       desc := q.desc[h := none][d1 := none][d2 := none],
       info := q.info[h := q.info[h].(b := -1)],
       owner := q.owner[h := -1][d1 := -1][d2 := -1],
       reqs := map g | g in q.reqs && g != h :: q.reqs[g])
  }

  lemma RetireKeeps(q: Queue, h: nat)
    requires Inv(q) && h in q.reqs && q.reqs[h].phase == Finished
    ensures h < NUM && q.reqs[h].d1 < NUM && q.reqs[h].d2 < NUM && Inv(Retired(q, h))
  {
    assert ChainOk(q, h);
    RetireKeepsOwners(q, h);
    RetireKeepsBusy(q, h);
    hide OwnersOk, ReqsOk, BusyOk;
  }

  lemma RetireKeepsOwners(q: Queue, h: nat)
    requires Inv(q) && h in q.reqs && ChainOk(q, h)
    ensures Sizes(Retired(q, h)) && OwnersOk(Retired(q, h)) && ReqsOk(Retired(q, h))
  {
    hide BusyOk, Counters, Window, OwnersOk, Formatted;
    FreeAgain(q, h);
    forall g: nat | g in Retired(q, h).reqs
      ensures ChainOk(Retired(q, h), g) && Formatted(Retired(q, h), g)
    {
      RetireKeepsReq(q, h, g);
    }
  }

  /** The descriptors of the chain have no owner now. */
  lemma FreeAgain(q: Queue, h: nat)
    requires Inv(q) && h in q.reqs && ChainOk(q, h)
    ensures Sizes(Retired(q, h)) && OwnersOk(Retired(q, h))
  {
    hide BusyOk, Counters, Window, Formatted;
    assert forall i: nat | i < NUM && q.owner[i] == h :: InChain(h, q.reqs[h], i);
  }

  lemma RetireKeepsReq(q: Queue, h: nat, g: nat)
    requires Sizes(q) && ReqsOk(q) && h in q.reqs && ChainOk(q, h) && g in q.reqs && g != h
    ensures ChainOk(Retired(q, h), g) && Formatted(Retired(q, h), g)
  {
    assert ChainOk(q, g) && Formatted(q, g);
  }

  lemma RetireKeepsBusy(q: Queue, h: nat)
    requires Inv(q) && h in q.reqs && q.reqs[h].phase == Finished && ChainOk(q, h)
    ensures BusyOk(Retired(q, h))
  {
    hide OwnersOk, ReqsOk, Counters, Window;
    var q' := Retired(q, h);
    forall b | b in q'.busy
      ensures exists g: nat :: g in q'.reqs && q'.reqs[g].buf == b
    {
      var g: nat :| g in q.reqs && q.reqs[g].buf == b;
      assert g in q'.reqs && q'.reqs[g].buf == b;
    }
  }

  // ---- whole runs ----

  /** What can happen next: a process offers a request on three free descriptors, the device fetches or
      completes one, the driver sees a completion, or a process frees its finished request. */
  datatype Event =
    | Submit(h: nat, d1: nat, d2: nat, buf: nat, write: bool, blockno: nat)
    | Fetch
    | Complete(h: nat, status: nat)
    | See
    | Retire(h: nat)

  /** No request is using this buffer. */
  ghost predicate Unused(q: Queue, buf: nat) {
    forall g: nat | g in q.reqs :: q.reqs[g].buf != buf
  }

  ghost predicate Enabled(q: Queue, e: Event) {
    match e
    case Submit(h, d1, d2, buf, _, _) => Available(q, h, d1, d2) && Unused(q, buf)
    case Fetch => q.taken < |q.posted|
    case Complete(h, _) => h in q.reqs && q.reqs[h].phase == AtDevice
    case See => q.seen < |q.done|
    case Retire(h) => h in q.reqs && q.reqs[h].phase == Finished
  }

  ghost function Step(q: Queue, e: Event): (q': Queue)
    requires Inv(q)
    ensures Inv(q')
  {
    if !Enabled(q, e) then q
    else match e
      case Submit(h, d1, d2, buf, write, blockno) =>
        SubmitKeeps(q, h, d1, d2, buf, write, blockno); Submitted(q, h, d1, d2, buf, write, blockno)
      case Fetch => FetchKeeps(q); Fetched(q)
      case Complete(h, status) => HeadInRange(q, h); CompleteKeeps(q, h, status); CompletedBy(q, h, status)
      case See => SeeKeeps(q); Seen(q)
      case Retire(h) => RetireKeeps(q, h); Retired(q, h)
  }

  lemma HeadInRange(q: Queue, h: nat)
    requires Inv(q) && h in q.reqs
    ensures h < NUM
  {
    assert ChainOk(q, h);
  }

  function Fresh(): Queue {
    Queue(seq(NUM, _ => true), seq(NUM, _ => Desc(Nowhere, 0, 0, 0)), seq(NUM, _ => Info(-1, 0)),
          seq(NUM, _ => Op(0, 0)),
          seq(NUM, _ => 0), 0, seq(NUM, _ => 0), 0, 0, {}, seq(NUM, _ => -1), map[], [], 0, [], 0)
  }

  lemma FreshInv()
    ensures Inv(Fresh())
  {
  }

  ghost function After(q: Queue, events: seq<Event>): (q': Queue)
    requires Inv(q)
    ensures Inv(q')
  {
    if events == [] then q else Step(After(q, events[..|events| - 1]), events[|events| - 1])
  }

  /** Completions waiting for the driver carry status 0. */
  ghost predicate AllWell(q: Queue) {
    forall h: nat | h in q.reqs && q.reqs[h].phase == Completed :: h < |q.info| && q.info[h].status == 0
  }

  lemma StepKeepsWell(q: Queue, e: Event)
    requires Inv(q) && AllWell(q) && (e.Complete? ==> e.status == 0)
    ensures AllWell(Step(q, e))
  {
    hide OwnersOk, ReqsOk, BusyOk, Counters, Window;
    var q' := Step(q, e);
    forall h: nat | h in q'.reqs && q'.reqs[h].phase == Completed
      ensures h < |q'.info| && q'.info[h].status == 0
    {
      HeadInRange(q', h);
    }
  }

  lemma {:induction false} RunKeepsWell(q: Queue, events: seq<Event>)
    requires Inv(q) && AllWell(q) && forall e | e in events && e.Complete? :: e.status == 0
    ensures AllWell(After(q, events))
  {
    if events != [] {
      RunKeepsWell(q, events[..|events| - 1]);
      StepKeepsWell(After(q, events[..|events| - 1]), events[|events| - 1]);
    }
  }

  /** In every run, in whatever order the device completes: at most two requests are outstanding, every
      chain is its request's own and well formed, and the next completion the driver looks at is the
      right one, is for a busy buffer, and reports success if the device does. */
  lemma EveryRunIsSafe(events: seq<Event>)
    requires forall e | e in events && e.Complete? :: e.status == 0
    ensures Inv(Fresh())
    ensures var q := After(Fresh(), events);
            && |q.reqs| <= NUM / 3
            && (q.seen < |q.done| ==>
                  var h := q.usedRing[q.seen % NUM];
                  h == q.done[q.seen] && h in q.reqs && h < NUM && q.reqs[h].buf in q.busy && q.info[h].status == 0)
  {
    FreshInv();
    RunKeepsWell(Fresh(), events);
    var q := After(Fresh(), events);
    AtMostTwo(q);
    if q.seen < |q.done| {
      SeeKeeps(q);
      assert q.reqs[q.done[q.seen]].phase == Completed;
    }
  }

  /** Event k of the run offered the request with this head, and it asked for what the record says. */
  ghost predicate AskedBy(events: seq<Event>, k: nat, h: nat, r: Request)
    requires Inv(Fresh())
  {
    && k < |events| && events[k] == Submit(h, r.d1, r.d2, r.buf, r.write, r.blockno)
    && Enabled(After(Fresh(), events[..k]), events[k])
  }

  lemma SameRequest(q: Queue, e: Event, h: nat)
    requires Inv(q) && h in Step(q, e).reqs
    ensures || (h in q.reqs && Step(q, e).reqs[h] == q.reqs[h].(phase := Step(q, e).reqs[h].phase))
            || (e.Submit? && Enabled(q, e) && e.h == h
                && Step(q, e).reqs[h] == Request(e.d1, e.d2, e.buf, e.write, e.blockno, Offered))
  {
    hide OwnersOk, ReqsOk, BusyOk, Counters, Window;
    match e
    case Submit(g, d1, d2, buf, write, blockno) =>
    case Fetch => if Enabled(q, e) { FetchKeeps(q); }
    case Complete(g, status) =>
    case See => if Enabled(q, e) { SeeKeeps(q); }
    case Retire(g) =>
  }

  /** Whatever a chain in flight asks of the device was asked of the driver: its head was offered by a
      request for that buffer, direction and block, and the chain still says so. */
  lemma {:induction false} EveryCommandWasAskedFor(events: seq<Event>, h: nat) returns (k: nat)
    requires Inv(Fresh()) && h in After(Fresh(), events).reqs
    ensures AskedBy(events, k, h, After(Fresh(), events).reqs[h])
    ensures Asks(After(Fresh(), events), h, events[k].buf, events[k].write, events[k].blockno)
    decreases |events|
  {
    hide Asks;
    var q := After(Fresh(), events);
    assert ReqsOk(q) && Formatted(q, h);
    FormattedAsks(q, h);
    var pre, e := events[..|events| - 1], events[|events| - 1];
    SameRequest(After(Fresh(), pre), e, h);
    if h in After(Fresh(), pre).reqs && q.reqs[h] == After(Fresh(), pre).reqs[h].(phase := q.reqs[h].phase) {
      k := EveryCommandWasAskedFor(pre, h);
      assert events[..k] == pre[..k];
    } else {
      k := |events| - 1;
    }
  }
}
