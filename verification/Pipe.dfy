/**
 Pipes (kernel/pipe.c): a ring of 512 bytes with free-running 32-bit counters.
 The ghost sequences record every byte ever put in and every byte ever taken out.
 */
module Pipe {
  type Byte = b: int | 0 <= b < 256

  const PIPESIZE: nat := 512
  const TWO32: nat := 0x1_0000_0000

  /** The next value of a uint. */
  function Succ(x: nat): nat {
    (x + 1) % TWO32
  }

  /** Wrapping at 2^32 does not disturb the ring index, because 512 divides 2^32. */
  lemma WrapKeepsIndex(n: nat)
    ensures n % TWO32 % PIPESIZE == n % PIPESIZE
    ensures Succ(n % TWO32) == (n + 1) % TWO32
  {
    var q, r := n / TWO32, n % TWO32;
    assert n == PIPESIZE * (q * (TWO32 / PIPESIZE)) + r;
    SameIndex(q * (TWO32 / PIPESIZE), r);
  }

  lemma SameIndex(k: int, r: nat)
    ensures (PIPESIZE * k + r) % PIPESIZE == r % PIPESIZE
  {
    assert PIPESIZE * k + r == PIPESIZE * (k + r / PIPESIZE) + r % PIPESIZE;
  }

  /** The two tests on wrapped counters decide full and empty, whatever the byte counts. */
  lemma WrappedTests(put: nat, took: nat)
    requires took <= put <= took + PIPESIZE
    ensures put % TWO32 == took % TWO32 <==> put == took
    ensures put % TWO32 == (took % TWO32 + PIPESIZE) % TWO32 <==> put == took + PIPESIZE
  {
    var d := put - took;
    assert put % TWO32 == (took % TWO32 + d) % TWO32;
  }

  /** Bytes that are in the ring at the same time are at different places. */
  lemma DistinctPlaces(j: nat, k: nat)
    requires j < k < j + PIPESIZE
    ensures j % PIPESIZE != k % PIPESIZE
  {
  }

  /** What another process does to the pipe while this one sleeps. */
  datatype Op = PutByte(b: Byte) | TakeByte | CloseRead | CloseWrite

  /** What others do during one sleep. */
  type Turn = seq<Op>

  /** How many bytes the others try to put in. */
  function Puts(ops: seq<Op>): nat {
    if ops == [] then 0 else (if ops[0].PutByte? then 1 else 0) + Puts(ops[1..])
  }

  lemma PutsMore(ops: seq<Op>, i: nat)
    requires i < |ops|
    ensures Puts(ops[i..]) == (if ops[i].PutByte? then 1 else 0) + Puts(ops[i + 1..])
  {
    assert ops[i..][1..] == ops[i + 1..];
  }

  datatype Result = Count(n: nat) | Failed | Asleep

  /** Where the bytes of one write have gone: to increasing positions of the history from lo on. */
  ghost predicate Delivered(hist: seq<Byte>, lo: nat, pos: seq<nat>, src: seq<Byte>) {
    && |pos| <= |src|
    && (forall k: nat | k < |pos| :: lo <= pos[k] < |hist| && hist[pos[k]] == src[k])
    && (forall j: nat, k: nat | j < k < |pos| :: pos[j] < pos[k])
  }

  /** Another process tries to put a byte in during one of the first `slept` sleeps. */
  ghost predicate OthersWrite(turns: seq<Turn>, slept: nat) {
    exists t: nat :: t < slept && t < |turns| && Puts(turns[t]) > 0
  }

  lemma OthersWriteMore(turns: seq<Turn>, slept: nat)
    requires slept < |turns|
    ensures OthersWrite(turns, slept) || Puts(turns[slept]) > 0 ==> OthersWrite(turns, slept + 1)
  {
  }

  lemma DeliveredNothing(hist: seq<Byte>, lo: nat, src: seq<Byte>)
    ensures Delivered(hist, lo, [], src)
  {
  }

  lemma DeliveredStill(hist: seq<Byte>, more: seq<Byte>, lo: nat, pos: seq<nat>, src: seq<Byte>)
    requires Delivered(hist, lo, pos, src) && hist <= more
    ensures Delivered(more, lo, pos, src)
  {
  }

  lemma DeliveredMore(hist: seq<Byte>, lo: nat, pos: seq<nat>, src: seq<Byte>)
    requires Delivered(hist, lo, pos, src) && |pos| < |src| && lo <= |hist|
    ensures Delivered(hist + [src[|pos|]], lo, pos + [|hist|], src)
  {
  }

  /** Increasing positions with no room to spare are consecutive. */
  lemma {:induction false} Consecutive(pos: seq<nat>, lo: nat, k: nat)
    requires forall j: nat, k: nat | j < k < |pos| :: pos[j] < pos[k]
    requires forall k: nat | k < |pos| :: lo <= pos[k] < lo + |pos|
    requires k < |pos|
    ensures pos[k] == lo + k
  {
    AtLeast(pos, lo, k);
    AtMost(pos, lo, k);
  }

  lemma {:induction false} AtLeast(pos: seq<nat>, lo: nat, k: nat)
    requires forall j: nat, k: nat | j < k < |pos| :: pos[j] < pos[k]
    requires forall k: nat | k < |pos| :: lo <= pos[k]
    requires k < |pos|
    ensures pos[k] >= lo + k
  {
    if k > 0 { AtLeast(pos, lo, k - 1); }
  }

  lemma {:induction false} AtMost(pos: seq<nat>, lo: nat, k: nat)
    requires forall j: nat, k: nat | j < k < |pos| :: pos[j] < pos[k]
    requires forall k: nat | k < |pos| :: pos[k] < lo + |pos|
    requires k < |pos|
    ensures pos[k] <= lo + k
    decreases |pos| - k
  {
    if k + 1 < |pos| { AtMost(pos, lo, k + 1); }
  }

  /** With no other writer, a write appends its bytes to the history in one piece. */
  lemma AloneInOnePiece(before: seq<Byte>, hist: seq<Byte>, pos: seq<nat>, src: seq<Byte>)
    requires before <= hist && Delivered(hist, |before|, pos, src) && |hist| == |before| + |pos|
    ensures hist == before + src[..|pos|]
  {
    forall k: nat | k < |pos|
      ensures hist[|before| + k] == src[k]
    {
      Consecutive(pos, |before|, k);
    }
  }

  /** Of the checks made, only the last can have found the process killed, and it did exactly when `failed`. */
  predicate KilledLast(killed: nat -> bool, checks: nat, failed: bool) {
    && (forall c: nat | c + 1 < checks :: !killed(c))
    && (if failed then checks > 0 && killed(checks - 1) else checks > 0 ==> !killed(checks - 1))
  }

  class Pipe {
    const data: array<Byte>
    var nread: nat
    var nwrite: nat
    var readopen: bool
    var writeopen: bool
    ghost var hist: seq<Byte>
    ghost var out: seq<Byte>

    /** The counters count modulo 2^32, what was taken out is a prefix of what was put in, and the rest
        is in the ring. */
    ghost predicate Valid()
      reads this, data
    {
      && data.Length == PIPESIZE
      && nread == |out| % TWO32 && nwrite == |hist| % TWO32
      && out <= hist && |hist| <= |out| + PIPESIZE
      && forall k: nat | |out| <= k < |hist| :: data[k % PIPESIZE] == hist[k]
    }

    /** pipealloc. */
    constructor ()
      ensures Valid() && fresh(data) && hist == [] && out == [] && readopen && writeopen
    {
      data := new Byte[PIPESIZE];
      nread, nwrite, readopen, writeopen, hist, out := 0, 0, true, true, [], [];
    }

    /** pi->data[pi->nwrite++ % PIPESIZE] = ch, when the pipe is not full. */
    method Put(ch: Byte)
      requires Valid() && |hist| < |out| + PIPESIZE
      modifies this`nwrite, this`hist, data
      ensures Valid() && hist == old(hist) + [ch]
    {
      WrapKeepsIndex(|hist|);
      forall k: nat | |out| <= k < |hist|
        ensures k % PIPESIZE != |hist| % PIPESIZE
      {
        DistinctPlaces(k, |hist|);
      }
      data[nwrite % PIPESIZE] := ch;
      nwrite := Succ(nwrite);
      hist := hist + [ch];
    }

    /** ch = pi->data[pi->nread++ % PIPESIZE], when the pipe is not empty. */
    method Take() returns (ch: Byte)
      requires Valid() && |out| < |hist|
      modifies this`nread, this`out
      ensures Valid() && ch == hist[|old(out)|] && out == old(out) + [ch]
    {
      WrapKeepsIndex(|out|);
      ch := data[nread % PIPESIZE];
      nread := Succ(nread);
      out := out + [ch];
    }

    /** The test for a full pipe. */
    method IsFull() returns (full: bool)
      requires Valid()
      ensures full <==> |hist| == |out| + PIPESIZE
    {
      WrappedTests(|hist|, |out|);
      full := nwrite == (nread + PIPESIZE) % TWO32;
    }

    /** The test for an empty pipe. */
    method IsEmpty() returns (empty: bool)
      requires Valid()
      ensures empty <==> |hist| == |out|
    {
      WrappedTests(|hist|, |out|);
      empty := nread == nwrite;
    }

    /** pipeclose: true when both ends are closed and the pipe is freed. */
    method Close(writable: bool) returns (freed: bool)
      modifies this`readopen, this`writeopen
      ensures writeopen == (old(writeopen) && !writable) && readopen == (old(readopen) && writable)
      ensures freed <==> !readopen && !writeopen
    {
      if writable {
        writeopen := false;
      } else {
        readopen := false;
      }
      freed := !readopen && !writeopen;
    }

    /** One step of another process, under the lock. It can put only into a pipe that is not full and
        take only from one that is not empty. */
    method Other(op: Op)
      requires Valid()
      modifies this, data
      ensures Valid() && old(hist) <= hist && old(out) <= out
      ensures |hist| - |old(hist)| <= if op.PutByte? then 1 else 0
      ensures (readopen ==> old(readopen)) && (writeopen ==> old(writeopen))
    {
      WrappedTests(|hist|, |out|);
      match op
      case PutByte(b) =>
        if nwrite != (nread + PIPESIZE) % TWO32 { Put(b); }
      case TakeByte =>
        if nread != nwrite { var ch := Take(); }
      case CloseRead =>
        var freed := Close(false);
      case CloseWrite =>
        var freed := Close(true);
    }

    /** What happens while this process sleeps. */
    method Sleep(turn: Turn)
      requires Valid()
      modifies this, data
      ensures Valid() && old(hist) <= hist && old(out) <= out
      ensures |hist| - |old(hist)| <= Puts(turn)
      ensures (readopen ==> old(readopen)) && (writeopen ==> old(writeopen))
    {
      var i := 0;
      assert turn[0..] == turn;
      while i < |turn|
        invariant 0 <= i <= |turn| && Valid() && old(hist) <= hist && old(out) <= out
        invariant |hist| - |old(hist)| + Puts(turn[i..]) <= Puts(turn)
        invariant (readopen ==> old(readopen)) && (writeopen ==> old(writeopen))
      {
        PutsMore(turn, i);
        Other(turn[i]);
        i := i + 1;
      }
    }

    /** pipewrite of n bytes. copyin succeeds for the first |src| of them, and killed(c) is the answer to the
        c-th of the `checks` calls of killed. The bytes written are a prefix of src and enter the history in
        order; the only others to enter it meanwhile are those of other writers during the sleeps that took
        place, and without any the bytes are consecutive. */
    method PipeWrite(src: seq<Byte>, n: int, killed: nat -> bool, turns: seq<Turn>)
      returns (r: Result, ghost pos: seq<nat>, ghost others: nat, ghost checks: nat, ghost slept: nat)
      requires Valid()
      modifies this, data
      ensures Valid() && old(hist) <= hist && old(out) <= out
      ensures Delivered(hist, |old(hist)|, pos, src) && |hist| == |old(hist)| + |pos| + others
      ensures slept <= |turns| && (others > 0 ==> OthersWrite(turns, slept))
      ensures r.Count? ==> r.n == |pos| && (if |src| < n then |pos| == |src| else n > 0 ==> |pos| == n)
      ensures KilledLast(killed, checks, r == Failed && readopen)
      ensures n > 0 && r != Failed ==> checks > 0 && readopen && old(readopen)
      ensures n > 0 && (!old(readopen) || killed(0)) ==> r == Failed && hist == old(hist) && out == old(out)
      ensures r == Asleep ==> |hist| == |out| + PIPESIZE && slept == |turns|
    {
      hide KilledLast, Delivered, OthersWrite, Puts;
      var i, t, c := 0, 0, 0;
      pos, others, checks, slept := [], 0, 0, 0;
      KilledNever(killed);
      DeliveredNothing(hist, |hist|, src);
      while i < n
        invariant 0 <= i <= |src| && (i <= n || i == 0) && i == |pos| && 0 <= t == slept <= |turns| && c == checks
        invariant Valid() && old(hist) <= hist && old(out) <= out && Delivered(hist, |old(hist)|, pos, src)
        invariant |hist| == |old(hist)| + |pos| + others
        invariant others > 0 ==> OthersWrite(turns, slept)
        invariant checks == 0 ==> hist == old(hist) && out == old(out) && readopen == old(readopen)
        invariant checks > 0 ==> old(readopen) && !killed(0)
        invariant 0 < n <= i ==> checks > 0 && readopen
        invariant KilledLast(killed, checks, false)
        decreases n - i + |turns| - t
      {
        if !readopen {
          return Failed, pos, others, checks, slept;
        }
        KilledMore(killed, checks);
        c, checks := c + 1, checks + 1;
        if killed(c - 1) {
          return Failed, pos, others, checks, slept;
        }
        var full := IsFull();
        if full {
          if t == |turns| {
            return Asleep, pos, others, checks, slept;
          }
          ghost var before := hist;
          Sleep(turns[t]);
          DeliveredStill(before, hist, |old(hist)|, pos, src);
          OthersWriteMore(turns, t);
          others := others + (|hist| - |before|);
          t, slept := t + 1, slept + 1;
        } else {
          if i == |src| {
            break;
          }
          DeliveredMore(hist, |old(hist)|, pos, src);
          pos := pos + [|hist|];
          Put(src[i]);
          i := i + 1;
        }
      }
      r := Count(i);
    }

    /** piperead of up to n bytes. copyout succeeds for the first `room` of them, and killed(c) is the answer
        to the c-th of the `checks` calls of killed. The bytes received are consecutive in the history and
        start where earlier readers stopped; a byte whose copyout fails is taken out and lost. */
    method PipeRead(n: int, room: nat, killed: nat -> bool, turns: seq<Turn>)
      returns (r: Result, got: seq<Byte>, ghost start: nat, ghost checks: nat, ghost slept: nat)
      requires Valid()
      modifies this, data
      ensures Valid() && old(hist) <= hist && old(out) <= out
      ensures r.Count? ==>
                && r.n == |got| && |old(out)| <= start && start + |got| <= |out|
                && got == hist[start..start + |got|]
      ensures r.Count? ==> |out| == start + |got| + (if Lost(|hist| - start, n, room) then 1 else 0)
      ensures r.Count? ==> |got| == Least(|hist| - start, n, room)
      ensures r.Count? && n > 0 && got == [] && room > 0 ==> !writeopen
      ensures slept <= |turns| && (slept == 0 ==> start == |old(out)| && hist == old(hist))
      ensures KilledLast(killed, checks, r == Failed)
      ensures r == Asleep ==> hist == out && writeopen && slept == |turns|
      ensures old(hist != out || !writeopen) ==> r.Count? && checks == 0 && slept == 0
    {
      got := [];
      r, start, checks, slept := AwaitData(killed, turns);
      if r.Count? {
        got := CopyOut(n, room);
        r := Count(|got|);
      }
    }

    /** The first loop of piperead: sleep until there is a byte or no writer; then Count(0). */
    method AwaitData(killed: nat -> bool, turns: seq<Turn>)
      returns (r: Result, ghost start: nat, ghost checks: nat, ghost slept: nat)
      requires Valid()
      modifies this, data
      ensures Valid() && old(hist) <= hist && old(out) <= out && start == |out|
      ensures r.Count? ==> |hist| == |out| ==> !writeopen
      ensures slept <= |turns| && (slept == 0 ==> hist == old(hist) && out == old(out))
      ensures KilledLast(killed, checks, r == Failed)
      ensures r == Asleep ==> hist == out && writeopen && slept == |turns|
      ensures old(hist != out || !writeopen) ==> r.Count? && checks == 0 && slept == 0
    {
      hide KilledLast;
      var t, c := 0, 0;
      start, checks, slept := |out|, 0, 0;
      KilledNever(killed);
      var empty := IsEmpty();
      while empty && writeopen
        invariant 0 <= t == slept <= |turns| && Valid() && old(hist) <= hist && old(out) <= out && start == |out|
        invariant c == checks && KilledLast(killed, checks, false)
        invariant t == 0 ==> hist == old(hist) && out == old(out) && writeopen == old(writeopen)
        invariant checks == t && (t > 0 ==> old(hist == out && writeopen))
        invariant empty <==> |out| == |hist|
        decreases |turns| - t
      {
        KilledMore(killed, checks);
        assert hist == out && old(hist == out && writeopen);
        c, checks := c + 1, checks + 1;
        if killed(c - 1) {
          return Failed, start, checks, slept;
        }
        if t == |turns| {
          return Asleep, start, checks, slept;
        }
        Sleep(turns[t]);
        t, slept, start := t + 1, slept + 1, |out|;
        empty := IsEmpty();
      }
      r := Count(0);
    }

    /** The second loop of piperead. */
    method CopyOut(n: int, room: nat) returns (got: seq<Byte>)
      requires Valid()
      modifies this`nread, this`out
      ensures Valid() && old(out) <= out && |old(out)| + |got| <= |out| && got == hist[|old(out)|..|old(out)| + |got|]
      ensures |out| == |old(out)| + |got| + (if Lost(|hist| - |old(out)|, n, room) then 1 else 0)
      ensures |got| == Least(|hist| - |old(out)|, n, room)
    {
      ghost var start := |out|;
      var i := 0;
      got := [];
      while i < n
        invariant 0 <= i && (i <= n || i == 0) && |got| == i <= room && i <= |hist| - start
        invariant Valid() && start + i == |out| && got == hist[start..start + i] && old(out) <= out
      {
        var empty := IsEmpty();
        if empty {
          break;
        }
        var ch := Take();
        if i == room {
          break;
        }
        got := got + [ch];
        i := i + 1;
      }
    }
  }

  lemma KilledNever(killed: nat -> bool)
    ensures KilledLast(killed, 0, false)
  {
  }

  lemma KilledMore(killed: nat -> bool, checks: nat)
    requires KilledLast(killed, checks, false)
    ensures KilledLast(killed, checks + 1, killed(checks))
  {
  }

  /** How many bytes a read delivers: what there is, what was asked for, or what there is room for. */
  function Least(available: nat, n: int, room: nat): nat {
    if n <= 0 then 0 else if available <= n && available <= room then available else if n <= room then n else room
  }

  /** A byte is lost when there was one more that was asked for and did not fit. */
  predicate Lost(available: nat, n: int, room: nat) {
    room < n && room < available
  }
}
