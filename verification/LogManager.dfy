/**
 The log of kernel/log.c as an object: its in-memory fields, the disk it
 writes, and the buffer-cache contents of the blocks it has pinned. Every block
 write is appended to `trace`, so a crash is any state in it.
 */
module LogManager {
  import opened Blocks
  import opened Seqs
  import opened GroupCommit
  import opened Redo

  /** A write of one block leads from d to e. */
  ghost predicate OneWrite(d: Disk, e: Disk) {
    |e| == |d| && exists b :: 0 <= b < |d| && e == d[b := e[b]]
  }

  function Last(d: Disk, states: seq<Disk>): Disk {
    if states == [] then d else states[|states| - 1]
  }

  /** The disk went from d to d' by single block writes, and was in each of these states after one of them. */
  ghost predicate Writes(d: Disk, states: seq<Disk>, d': Disk) {
    && Last(d, states) == d'
    && forall i | 0 <= i < |states| :: OneWrite(Last(d, states[..i]), states[i])
  }

  lemma WritesOne(d: Disk, states: seq<Disk>, d': Disk, b: nat, data: Block)
    requires Writes(d, states, d') && b < |d'|
    ensures Writes(d, states + [d'[b := data]], d'[b := data])
  {
    var e := d'[b := data];
    assert e == d'[b := e[b]];
    forall i | 0 <= i < |states + [e]|
      ensures OneWrite(Last(d, (states + [e])[..i]), (states + [e])[i])
    {
      assert (states + [e])[..i] == states[..i];
      assert i == |states| ==> states[..i] == states;
    }
  }

  lemma LastOfBoth(d: Disk, states: seq<Disk>, more: seq<Disk>)
    ensures Last(d, states + more) == Last(Last(d, states), more)
  {
    assert more == [] ==> states + more == states;
  }

  lemma WritesThenWrites(d: Disk, states: seq<Disk>, d1: Disk, more: seq<Disk>, d2: Disk)
    requires Writes(d, states, d1) && Writes(d1, more, d2)
    ensures Writes(d, states + more, d2)
  {
    hide OneWrite, Last;
    LastOfBoth(d, states, more);
    forall i | 0 <= i < |states + more|
      ensures OneWrite(Last(d, (states + more)[..i]), (states + more)[i])
    {
      if i < |states| {
        assert (states + more)[..i] == states[..i];
      } else {
        LastOfBoth(d, states, more[..i - |states|]);
        assert (states + more)[..i] == states + more[..i - |states|];
      }
    }
  }

  /** Every state recovers to the given home blocks, and its header is sound. */
  ghost predicate AllRecover(lay: Layout, states: seq<Disk>, target: Disk) {
    forall i | 0 <= i < |states| ::
      GoodHead(lay, states[i]) && SameHome(lay, Recovered(lay, states[i]), target)
  }

  /** Only blocks outside the log are logged or pinned. */
  ghost predicate HomesOnly(lay: Layout, d: Disk, blocks: seq<nat>, cache: map<nat, Block>) {
    && (forall i | 0 <= i < |blocks| :: blocks[i] < |d| && IsHome(lay, blocks[i]))
    && (forall b | b in cache :: b < |d| && IsHome(lay, b))
  }

  /** The pinned buffers are those of the logged blocks. */
  ghost predicate Pins(blocks: seq<nat>, cache: map<nat, Block>) {
    forall b :: b in cache <==> b in blocks
  }

  lemma AbsorbPins(lay: Layout, d: Disk, blocks: seq<nat>, cache: map<nat, Block>, b: nat, data: Block)
    requires HomesOnly(lay, d, blocks, cache) && Pins(blocks, cache) && b < |d| && IsHome(lay, b)
    ensures HomesOnly(lay, d, Absorb(blocks, b), cache[b := data])
    ensures Pins(Absorb(blocks, b), cache[b := data])
  {
  }

  lemma OverlayUpdate(d: Disk, cache: map<nat, Block>, b: nat, data: Block)
    requires b < |d|
    ensures Overlay(d, cache[b := data]) == Overlay(d, cache)[b := data]
  {
  }

  lemma OverlaySameHome(lay: Layout, d: Disk, e: Disk, cache: map<nat, Block>)
    requires SameHome(lay, d, e)
    ensures SameHome(lay, Overlay(d, cache), Overlay(e, cache))
    ensures Overlay(d, map[]) == d
  {
  }

  lemma Regroup(a: seq<Disk>, b: seq<Disk>, c: seq<Disk>)
    ensures a + b + c == a + (b + c)
  {
  }

  /** From the commit point on, every state recovers to the whole transaction. */
  lemma CommittedStates(lay: Layout, d: Disk, cache: map<nat, Block>, goal: Disk, states: seq<Disk>)
    requires HoldsTransaction(lay, d, cache) && SameHome(lay, Overlay(d, cache), goal)
    requires forall s | s in states :: RecoveryState(lay, d, s)
    ensures AllRecover(lay, states, goal)
  {
    RecoversTransaction(lay, d, cache);
    forall i | 0 <= i < |states|
      ensures GoodHead(lay, states[i]) && SameHome(lay, Recovered(lay, states[i]), goal)
    {
      RecoveryIsRestartable(lay, d, states[i]);
    }
  }

  /** The disk states install_trans passes through. */
  ghost function InstallTrace(lay: Layout, d: Disk, k: nat): seq<Disk>
    requires GoodHead(lay, d) && k <= HeadCount(lay, d)
  {
    if k == 0 then [] else InstallTrace(lay, d, k - 1) + [Install(lay, d, k)]
  }

  lemma {:induction false} InstallTraceStates(lay: Layout, d: Disk, k: nat)
    requires GoodHead(lay, d) && k <= HeadCount(lay, d)
    ensures forall s | s in InstallTrace(lay, d, k) :: RecoveryState(lay, d, s)
  {
    if k > 0 {
      InstallTraceStates(lay, d, k - 1);
    }
  }

  lemma {:induction false} InstallTraceWrites(lay: Layout, d: Disk, k: nat)
    requires GoodHead(lay, d) && k <= HeadCount(lay, d)
    ensures Writes(d, InstallTrace(lay, d, k), Install(lay, d, k))
  {
    hide Writes, Install;
    if k == 0 {
      InstallNone(lay, d);
      WritesNone(d);
    } else {
      InstallTraceWrites(lay, d, k - 1);
      InstallNext(lay, d, k - 1);
      WritesOne(d, InstallTrace(lay, d, k - 1), Install(lay, d, k - 1), HeadBlock(lay, d, k - 1), d[lay.start + k]);
    }
  }

  /** Installing and erasing the header are single block writes from d to what recovery leaves behind. */
  lemma RecoveryWrites(lay: Layout, d: Disk)
    requires GoodHead(lay, d)
    ensures Writes(d, InstallTrace(lay, d, HeadCount(lay, d)) + [Recovered(lay, d)], Recovered(lay, d))
  {
    hide Writes, Install;
    var n := HeadCount(lay, d);
    InstallTraceWrites(lay, d, n);
    var e := Install(lay, d, n);
    WritesOne(d, InstallTrace(lay, d, n), e, lay.start, SetWord(e[lay.start], 0, 0));
  }

  lemma InstallNone(lay: Layout, d: Disk)
    requires GoodHead(lay, d)
    ensures Install(lay, d, 0) == d
  {
  }

  lemma InstallNext(lay: Layout, d: Disk, k: nat)
    requires GoodHead(lay, d) && k < HeadCount(lay, d)
    ensures Install(lay, d, k + 1) == Install(lay, d, k)[HeadBlock(lay, d, k) := d[lay.start + (k + 1)]]
  {
  }

  function Members(blocks: seq<nat>): set<nat> {
    set b | b in blocks
  }

  /** After write_log and write_head the on-disk log holds exactly the pinned blocks. */
  lemma TransactionReady(lay: Layout, disk: Disk, block: seq<nat>, c: map<nat, Block>)
    requires GoodHead(lay, disk) && HeadCount(lay, disk) == |block|
    requires forall i | 0 <= i < |block| :: HeadBlock(lay, disk, i) == block[i]
    requires forall i | 0 <= i < |block| :: block[i] in c && disk[lay.start + 1 + i] == c[block[i]]
    requires Pins(block, c)
    requires forall b | b in c :: b < |disk|
    ensures HoldsTransaction(lay, disk, c)
  {
    forall b | b in c
      ensures Logged(lay, disk, |block|, b)
    {
      var i :| 0 <= i < |block| && block[i] == b;
      assert HeadBlock(lay, disk, i) == b;
    }
  }

  /** Everything commit() does from the commit point on, seen as disk states. */
  lemma Aftermath(lay: Layout, d: Disk, cache: map<nat, Block>, goal: Disk)
    requires HoldsTransaction(lay, d, cache) && SameHome(lay, Overlay(d, cache), goal)
    ensures var n := HeadCount(lay, d); var end := ClearHead(lay, Install(lay, d, n));
            && AllRecover(lay, [d] + (InstallTrace(lay, d, n) + [end]), goal)
            && Fits(lay, end) && HeadCount(lay, end) == 0 && SameHome(lay, end, goal)
  {
    var n := HeadCount(lay, d);
    InstallTraceStates(lay, d, n);
    assert d == Install(lay, d, 0);
    CommittedStates(lay, d, cache, goal, [d] + (InstallTrace(lay, d, n) + [Recovered(lay, d)]));
    RecoversTransaction(lay, d, cache);
    ClearedHead(lay, Install(lay, d, n));
  }

  /** A commit took the disk from d to d' by single block writes. Up to its commit point every state,
      from d on, recovers to the home blocks of d; from it on, every state recovers to those of goal. */
  ghost predicate CommitRun(lay: Layout, d: Disk, before: seq<Disk>, after: seq<Disk>, d': Disk, goal: Disk) {
    && Writes(d, before + after, d')
    && AllRecover(lay, [d] + before, d) && AllRecover(lay, after, goal)
  }

  /** Crash atomicity. Stop a commit before or after any one of its block writes and rerun recovery until
      it completes, however often that is cut short: the home blocks are all old before the commit point
      and all new from it on, and the log is empty. */
  lemma CrashAtomicity(lay: Layout, d: Disk, before: seq<Disk>, after: seq<Disk>, d': Disk, goal: Disk, ds: seq<Disk>)
    requires CommitRun(lay, d, before, after, d', goal)
    requires CrashChain(lay, ds) && ds[0] in [d] + before + after
    ensures var end := Recovered(lay, ds[|ds| - 1]);
            && (ds[0] in [d] + before ==> SameHome(lay, end, d)) && (ds[0] in after ==> SameHome(lay, end, goal))
            && Fits(lay, end) && HeadCount(lay, end) == 0
  {
    AnyNumberOfCrashes(lay, ds);
    ClearedHead(lay, Install(lay, ds[|ds| - 1], HeadCount(lay, ds[|ds| - 1])));
  }

  lemma WritesNone(d: Disk)
    ensures Writes(d, [], d)
  {
  }

  lemma NoCommit(lay: Layout, d: Disk)
    requires Fits(lay, d) && HeadCount(lay, d) == 0
    ensures CommitRun(lay, d, [], [], d, Overlay(d, map[]))
  {
    WritesNone(d);
    RecoversFirst(lay, d, []);
  }

  lemma NoneRecover(lay: Layout, target: Disk)
    ensures AllRecover(lay, [], target)
  {
  }

  /** While the header on disk is empty, a write to the log changes nothing that recovery brings back. */
  lemma OneMoreRecovers(lay: Layout, states: seq<Disk>, d: Disk, target: Disk)
    requires AllRecover(lay, states, target) && Fits(lay, d) && HeadCount(lay, d) == 0 && SameHome(lay, d, target)
    ensures AllRecover(lay, states + [d], target)
  {
    RecoversNothing(lay, d);
  }

  lemma RecoversFirst(lay: Layout, d: Disk, states: seq<Disk>)
    requires Fits(lay, d) && HeadCount(lay, d) == 0 && AllRecover(lay, states, d)
    ensures AllRecover(lay, [d] + states, d)
  {
    RecoversNothing(lay, d);
  }

  /** The commit: the log is written, the header with it, and what follows. */
  lemma WholeCommit(lay: Layout, d: Disk, before: seq<Disk>, d1: Disk, states: seq<Disk>, d': Disk, goal: Disk)
    requires Fits(lay, d) && HeadCount(lay, d) == 0 && AllRecover(lay, before, d)
    requires Writes(d, before + [d1], d1) && Writes(d1, states, d') && AllRecover(lay, [d1] + states, goal)
    ensures CommitRun(lay, d, before, [d1] + states, d', goal)
  {
    hide Writes, AllRecover;
    RecoversFirst(lay, d, before);
    WritesThenWrites(d, before + [d1], d1, states, d');
    Regroup(before, [d1], states);
  }

  class Log {
    const lay: Layout
    const block: array<nat>
    var n: nat
    var outstanding: nat
    var committing: bool
    var disk: Disk
    /** Contents of the buffers pinned by log_write, which the disk does not have yet. */
    var cache: map<nat, Block>
    ghost var ops: seq<set<nat>>
    ghost var trace: seq<Disk>

    ghost predicate Shape()
      reads this, block
    {
      && block.Length == LOGSIZE && n <= LOGSIZE && n < lay.size
      && Fits(lay, disk) && HomesOnly(lay, disk, block[..n], cache)
    }

    /** Nothing committed is waiting on disk to be installed, and every logged block is pinned. */
    ghost predicate Settled()
      reads this, block
    {
      Shape() && HeadCount(lay, disk) == 0 && Pins(block[..n], cache)
    }

    ghost predicate Valid()
      reads this, block
    {
      Settled() && outstanding == |ops| && Inv(State())
    }

    ghost function State(): Group
      requires Shape()
      reads this, block
    {
      Group(block[..n], ops, committing)
    }

    /** What the file system sees: the latest contents of every home block. */
    ghost function View(): Disk
      reads this
    {
      Overlay(disk, cache)
    }

    /** The buffer cache returns the pinned contents, else what the disk holds. */
    function Read(b: nat): Block
      requires b < |disk|
      reads this
    {
      if b in cache then cache[b] else disk[b]
    }

    method Write(b: nat, data: Block)
      requires b < |disk|
      modifies this`disk, this`trace
      ensures disk == old(disk)[b := data] && trace == old(trace) + [disk]
    {
      disk := disk[b := data];
      trace := trace + [disk];
    }

    /** One pass of the loop in begin_op: admitted, or put to sleep with nothing changed. */
    method BeginOp() returns (admitted: bool)
      requires Valid()
      modifies this
      ensures Valid() && Step(lay.size, old(State()), Begin) == Ok(State())
      ensures admitted <==> !old(committing) && old(n) + (old(outstanding) + 1) * MAXOPBLOCKS <= LOGSIZE
      ensures outstanding == old(outstanding) + (if admitted then 1 else 0)
      ensures committing == old(committing) && n == old(n) && cache == old(cache)
      ensures View() == old(View()) && disk == old(disk) && trace == old(trace)
    {
      ghost var g := State();
      StepKeepsInv(lay.size, g, Begin);
      admitted := !committing && n + (outstanding + 1) * MAXOPBLOCKS <= LOGSIZE;
      if admitted {
        outstanding := outstanding + 1;
        ops := ops + [{}];
      }
    }

    /** The caller has changed the buffer of block b to `data`; record and pin it. */
    method LogWrite(b: nat, data: Block, ghost op: nat) returns (panicked: bool)
      requires Valid() && Enabled(State(), GroupCommit.LogWrite(op, b))
      requires b < |disk| && IsHome(lay, b)
      modifies this, block
      ensures Valid() && disk == old(disk) && trace == old(trace)
      ensures panicked == (Step(lay.size, old(State()), GroupCommit.LogWrite(op, b)) == Panic)
      ensures panicked <==> old(n) >= LOGSIZE || old(n) >= lay.size - 1
      ensures panicked ==> State() == old(State()) && View() == old(View())
      ensures !panicked ==> old(block[..n]) <= block[..n] && b in block[..n]
      ensures !panicked ==> n == old(n) + (if b in old(block[..n]) then 0 else 1)
      ensures outstanding == old(outstanding) && committing == old(committing)
      ensures !panicked ==> Step(lay.size, old(State()), GroupCommit.LogWrite(op, b)) == Ok(State())
      ensures !panicked ==> View() == old(View())[b := data]
    {
      ghost var g := State();
      panicked := n >= LOGSIZE || n >= lay.size - 1;
      if panicked {
        return;
      }
      StepKeepsInv(lay.size, g, GroupCommit.LogWrite(op, b));
      OverlayUpdate(disk, cache, b, data);
      AbsorbPins(lay, disk, block[..n], cache, b, data);
      Record(b);
      cache := cache[b := data];
      ops := ops[op := ops[op] + {b}];
    }

    /** Find the block in the header or append it: log absorption. */
    method Record(b: nat)
      requires block.Length == LOGSIZE && n < LOGSIZE
      modifies this`n, block
      ensures n <= LOGSIZE && block[..n] == Absorb(old(block[..n]), b)
      ensures old(block[..n]) <= block[..n] && b in block[..n] && n == old(n) + (if b in old(block[..n]) then 0 else 1)
    {
      var i := 0;
      while i < n && block[i] != b
        invariant i <= n && b !in block[..i]
      {
        i := i + 1;
      }
      assert b in block[..n] <==> i < n;
      block[i] := b;
      if i == n {
        n := n + 1;
      }
    }

    /** The locked part of end_op; the last operation out must commit. */
    method EndOp(ghost op: nat) returns (panicked: bool, doCommit: bool)
      requires Valid() && Enabled(State(), End(op))
      modifies this
      ensures Valid() && !panicked && Step(lay.size, old(State()), End(op)) == Ok(State())
      ensures outstanding == old(outstanding) - 1 && (doCommit <==> outstanding == 0) && committing == doCommit
      ensures n == old(n) && cache == old(cache)
      ensures View() == old(View()) && disk == old(disk) && trace == old(trace)
    {
      ghost var g := State();
      StepKeepsInv(lay.size, g, End(op));
      outstanding := outstanding - 1;
      ops := Without(ops, op);
      panicked, doCommit := committing, false;
      if outstanding == 0 {
        doCommit := true;
        committing := true;
      }
    }

    /** The last step of end_op: the commit is over and operations may begin again. */
    method CommitDone()
      requires Valid() && committing && n == 0
      modifies this`committing
      ensures Valid() && !committing && Step(lay.size, old(State()), Committed) == Ok(State())
    {
      ghost var g := State();
      StepKeepsInv(lay.size, g, Committed);
      committing := false;
    }

    /** Copy the pinned blocks to the on-disk log. */
    method WriteLog() returns (ghost states: seq<Disk>)
      requires Settled()
      modifies this`disk, this`trace
      ensures SameHome(lay, disk, old(disk)) && disk[lay.start] == old(disk)[lay.start]
      ensures forall i | 0 <= i < n :: block[i] in cache && disk[lay.start + 1 + i] == cache[block[i]]
      ensures trace == old(trace) + states && AllRecover(lay, states, old(disk)) && Writes(old(disk), states, disk)
    {
      hide Writes, AllRecover;
      WritesNone(disk);
      NoneRecover(lay, disk);
      states := [];
      for tail := 0 to n
        invariant SameHome(lay, disk, old(disk)) && disk[lay.start] == old(disk)[lay.start]
        invariant forall i | 0 <= i < tail :: block[i] in cache && disk[lay.start + 1 + i] == cache[block[i]]
        invariant trace == old(trace) + states && AllRecover(lay, states, old(disk))
        invariant Writes(old(disk), states, disk)
      {
        assert block[tail] in block[..n];
        var from := Read(block[tail]);
        WritesOne(old(disk), states, disk, lay.start + tail + 1, from);
        Write(lay.start + tail + 1, from);
        OneMoreRecovers(lay, states, disk, old(disk));
        states := states + [disk];
      }
    }

    /** Write the in-memory header over the on-disk one; words past the count keep their old value. */
    method WriteHead()
      requires Shape()
      modifies this`disk, this`trace
      ensures |disk| == |old(disk)| && disk == old(disk)[lay.start := disk[lay.start]]
      ensures trace == old(trace) + [disk]
      ensures HeadCount(lay, disk) == n
      ensures forall i | 0 <= i < n :: HeadBlock(lay, disk, i) == block[i]
      ensures n == 0 ==> disk == ClearHead(lay, old(disk))
    {
      var hb := Read(lay.start);
      SetWordReads(hb, 0, n);
      hb := SetWord(hb, 0, n);
      for i := 0 to n
        invariant disk == old(disk) && trace == old(trace)
        invariant Word(hb, 0) == n
        invariant forall j | 0 <= j < i :: Word(hb, j + 1) == block[j]
        invariant n == 0 ==> hb == SetWord(disk[lay.start], 0, 0)
      {
        SetWordReads(hb, i + 1, block[i]);
        hb := SetWord(hb, i + 1, block[i]);
      }
      Write(lay.start, hb);
    }

    /** Copy logged blocks home; outside recovery each is unpinned once it is on disk. */
    method InstallTrans(recovering: bool)
      requires Shape() && GoodHead(lay, disk) && HeadCount(lay, disk) == n
      requires forall i | 0 <= i < n :: HeadBlock(lay, disk, i) == block[i]
      requires if recovering then cache == map[] else cache - Members(block[..n]) == map[]
      modifies this`disk, this`trace, this`cache
      ensures disk == Install(lay, old(disk), n) && Shape() && cache == map[]
      ensures trace == old(trace) + InstallTrace(lay, old(disk), n)
    {
      hide Install;
      ghost var d0, c0 := disk, cache;
      InstallNone(lay, d0);
      for tail := 0 to n
        invariant disk == Install(lay, d0, tail) && SameLog(lay, d0, disk)
        invariant cache == if recovering then map[] else c0 - Members(block[..tail])
        invariant trace == old(trace) + InstallTrace(lay, d0, tail)
      {
        var lbuf := Read(lay.start + tail + 1);
        assert lbuf == d0[lay.start + (tail + 1)] && block[tail] == HeadBlock(lay, d0, tail);
        InstallNext(lay, d0, tail);
        Write(block[tail], lbuf);
        if !recovering {
          cache := cache - {block[tail]};
          assert Members(block[..tail + 1]) == Members(block[..tail]) + {block[tail]};
        }
      }
    }

    /** write_log and then write_head: the write of the header is the commit point. */
    method LogTransaction() returns (ghost before: seq<Disk>)
      requires Settled() && 0 < n
      modifies this`disk, this`trace
      ensures Committable()
      ensures SameHome(lay, disk, old(disk)) && trace == old(trace) + before + [disk]
      ensures AllRecover(lay, before, old(disk)) && Writes(old(disk), before + [disk], disk)
    {
      hide Writes, AllRecover, Word;
      before := WriteLog();
      ghost var d := disk;
      WriteHead();
      WritesOne(old(disk), before, d, lay.start, disk[lay.start]);
      TransactionReady(lay, disk, block[..n], cache);
    }

    /** commit(): one block write is the commit point. Stopped before it, the disk recovers to the old
        home blocks; stopped from it on, to the old home blocks overlaid with the whole transaction. */
    method Commit() returns (ghost before: seq<Disk>, ghost after: seq<Disk>)
      requires Valid() && committing
      modifies this`disk, this`trace, this`cache, this`n
      ensures Valid() && n == 0
      ensures trace == old(trace) + before + after
      ensures CommitRun(lay, old(disk), before, after, disk, old(View()))
      ensures old(n) > 0 ==> after != []
      ensures View() == disk && SameHome(lay, disk, old(View()))
    {
      hide Writes, AllRecover, HoldsTransaction;
      if n == 0 {
        assert cache == map[];
        OverlaySameHome(lay, disk, disk, map[]);
        NoCommit(lay, disk);
        return [], [];
      }
      ghost var goal := View();
      before := LogTransaction();
      ghost var d1 := disk;
      OverlaySameHome(lay, d1, old(disk), cache);
      ghost var states := FinishTransaction(goal);
      after := [d1] + states;
      Regroup(old(trace) + before, [d1], states);
      WholeCommit(lay, old(disk), before, d1, states, disk, goal);
      assert block[..n] == [];
    }

    /** From the commit point to the end of the commit. */
    method FinishTransaction(ghost goal: Disk) returns (ghost states: seq<Disk>)
      requires Committable()
      requires SameHome(lay, Overlay(disk, cache), goal)
      modifies this`disk, this`trace, this`cache, this`n
      ensures Shape() && HeadCount(lay, disk) == 0 && n == 0 && cache == map[]
      ensures AllRecover(lay, [old(disk)] + states, goal) && trace == old(trace) + states
      ensures Writes(old(disk), states, disk)
      ensures View() == disk && SameHome(lay, disk, goal)
    {
      Aftermath(lay, disk, cache, goal);
      RecoveryWrites(lay, disk);
      states := ClearTransaction();
      OverlaySameHome(lay, disk, disk, map[]);
    }

    /** The on-disk log holds the transaction that is in memory. */
    ghost predicate Committable()
      reads this, block
    {
      && Shape() && HoldsTransaction(lay, disk, cache) && HeadCount(lay, disk) == n
      && (forall i | 0 <= i < n :: HeadBlock(lay, disk, i) == block[i])
      && Pins(block[..n], cache)
    }

    /** The rest of a commit or a recovery: install every logged block, then erase the header. */
    method ClearTransaction(recovering: bool := false) returns (ghost states: seq<Disk>)
      requires Shape() && GoodHead(lay, disk) && HeadCount(lay, disk) == n
      requires forall i | 0 <= i < n :: HeadBlock(lay, disk, i) == block[i]
      requires if recovering then cache == map[] else cache - Members(block[..n]) == map[]
      modifies this`disk, this`trace, this`cache, this`n
      ensures Shape() && n == 0 && cache == map[] && disk == Recovered(lay, old(disk))
      ensures trace == old(trace) + states
      ensures states == InstallTrace(lay, old(disk), old(n)) + [disk]
    {
      InstallTrans(recovering);
      states := InstallTrace(lay, old(disk), n);
      n := 0;
      WriteHead();
      states := states + [disk];
    }

    /** read_head: the header on disk is read into memory. */
    method ReadHead()
      requires block.Length == LOGSIZE && GoodHead(lay, disk)
      modifies this`n, block
      ensures n == HeadCount(lay, disk) && forall i | 0 <= i < n :: block[i] == HeadBlock(lay, disk, i)
    {
      n := Word(disk[lay.start], 0);
      for i := 0 to n
        invariant n == HeadCount(lay, disk)
        invariant forall j | 0 <= j < i :: block[j] == HeadBlock(lay, disk, j)
      {
        block[i] := Word(disk[lay.start], i + 1);
      }
    }

    /** Boot: copy a committed transaction home and clear the header. */
    method RecoverFromLog()
      requires block.Length == LOGSIZE && GoodHead(lay, disk) && cache == map[]
      requires outstanding == 0 && ops == [] && !committing
      modifies this, block
      ensures Valid() && n == 0 && disk == Recovered(lay, old(disk)) && View() == disk
      ensures |old(trace)| <= |trace| && trace[..|old(trace)|] == old(trace)
      ensures forall i | |old(trace)| <= i < |trace| :: RecoveryState(lay, old(disk), trace[i])
      ensures Writes(old(disk), trace[|old(trace)|..], disk)
    {
      hide Install, Writes;
      ghost var d0 := disk;
      ReadHead();
      InstallTraceStates(lay, d0, n);
      RecoveryWrites(lay, d0);
      ClearedHead(lay, Install(lay, d0, n));
      ghost var states := ClearTransaction(true);
      assert trace[|old(trace)|..] == states;
      OverlaySameHome(lay, disk, disk, map[]);
    }
  }
}
