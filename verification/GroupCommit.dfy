/**
 Group commit (kernel/log.c): every interleaving of begin_op, log_write, end_op
 and the end of a commit, each one atomic because log.lock is held.
 A file-system operation is named by its position in `ops`, which holds the set
 of block numbers it has logged so far.
 */
module GroupCommit {
  import opened Seqs

  const MAXOPBLOCKS: nat := 10
  const LOGSIZE: nat := MAXOPBLOCKS * 3

  /** In-memory log state: log.lh.block[..log.lh.n], the outstanding operations, log.committing. */
  datatype Group = Group(blocks: seq<nat>, ops: seq<set<nat>>, committing: bool)

  datatype Event =
    | Begin
    | LogWrite(op: nat, b: nat)
    | End(op: nat)
    | Committed

  datatype Outcome = Ok(g: Group) | Panic

  const Idle: Group := Group([], [], false)

  /** begin_op lets an operation in; otherwise the caller sleeps and the state stays as it is. */
  predicate Admits(g: Group) {
    !g.committing && |g.blocks| + (|g.ops| + 1) * MAXOPBLOCKS <= LOGSIZE
  }

  function Absorb(blocks: seq<nat>, b: nat): seq<nat> {
    if b in blocks then blocks else blocks + [b]
  }

  /** What the file system promises: only an outstanding operation logs or ends, and none logs
      more than MAXOPBLOCKS distinct blocks. */
  predicate Enabled(g: Group, e: Event) {
    match e
    case Begin => true
    case LogWrite(op, b) => op < |g.ops| && |g.ops[op] + {b}| <= MAXOPBLOCKS
    case End(op) => op < |g.ops|
    case Committed => g.committing
  }

  function Step(size: int, g: Group, e: Event): Outcome
    requires Enabled(g, e)
  {
    match e
    case Begin =>
      if Admits(g) then Ok(g.(ops := g.ops + [{}])) else Ok(g)
    case LogWrite(op, b) =>
      if |g.blocks| >= LOGSIZE || |g.blocks| >= size - 1 then Panic
      else Ok(g.(blocks := Absorb(g.blocks, b), ops := g.ops[op := g.ops[op] + {b}]))
    case End(op) =>
      if g.committing then Panic
      else
        var ops := Without(g.ops, op);
        Ok(g.(ops := ops, committing := ops == []))
    case Committed =>
      Ok(g.(blocks := [], committing := false))
  }

  /** The state after a run from the idle log, or Panic once some step panicked. */
  function Run(size: int, es: seq<Event>): Outcome {
    if es == [] then Ok(Idle)
    else
      var before := Run(size, es[..|es| - 1]);
      if before.Ok? && Enabled(before.g, es[|es| - 1]) then Step(size, before.g, es[|es| - 1]) else before
  }

  /** Reserved blocks the outstanding operations have not used yet. */
  function Unused(ops: seq<set<nat>>): int {
    if ops == [] then 0 else MAXOPBLOCKS - |ops[|ops| - 1]| + Unused(ops[..|ops| - 1])
  }

  ghost predicate Inv(g: Group) {
    && Distinct(g.blocks)
    && (g.committing ==> g.ops == [])
    && (forall i | 0 <= i < |g.ops| :: |g.ops[i]| <= MAXOPBLOCKS && forall b | b in g.ops[i] :: b in g.blocks)
    && |g.blocks| + Unused(g.ops) <= LOGSIZE
  }

  lemma {:induction false} UnusedWithout(ops: seq<set<nat>>, i: nat)
    requires i < |ops|
    ensures Unused(Without(ops, i)) == Unused(ops) - (MAXOPBLOCKS - |ops[i]|)
  {
    var last := |ops| - 1;
    if i == last {
      assert Without(ops, i) == ops[..last];
    } else {
      UnusedWithout(ops[..last], i);
      var w := Without(ops, i);
      assert w[..|w| - 1] == Without(ops[..last], i);
    }
  }

  lemma {:induction false} UnusedUpdate(ops: seq<set<nat>>, i: nat, s: set<nat>)
    requires i < |ops|
    ensures Unused(ops[i := s]) == Unused(ops) + |ops[i]| - |s|
  {
    var last := |ops| - 1;
    if i == last {
      assert ops[i := s][..last] == ops[..last];
    } else {
      UnusedUpdate(ops[..last], i, s);
      assert ops[i := s][..last] == ops[..last][i := s];
    }
  }

  lemma {:induction false} UnusedBounds(ops: seq<set<nat>>)
    requires forall i | 0 <= i < |ops| :: |ops[i]| <= MAXOPBLOCKS
    ensures 0 <= Unused(ops) <= |ops| * MAXOPBLOCKS
    ensures forall i | 0 <= i < |ops| :: MAXOPBLOCKS - |ops[i]| <= Unused(ops)
  {
    if ops != [] {
      UnusedBounds(ops[..|ops| - 1]);
    }
  }

  lemma BeginKeeps(g: Group)
    requires Inv(g) && Admits(g)
    ensures Inv(g.(ops := g.ops + [{}]))
  {
    UnusedBounds(g.ops);
    assert (g.ops + [{}])[..|g.ops|] == g.ops;
  }

  lemma WriteKeeps(g: Group, op: nat, b: nat)
    requires Inv(g) && Enabled(g, LogWrite(op, b)) && |g.blocks| < LOGSIZE
    ensures Inv(g.(blocks := Absorb(g.blocks, b), ops := g.ops[op := g.ops[op] + {b}]))
  {
    UnusedUpdate(g.ops, op, g.ops[op] + {b});
    if b in g.ops[op] {
      assert g.ops[op] + {b} == g.ops[op];
    }
  }

  lemma EndKeeps(g: Group, op: nat)
    requires Inv(g) && op < |g.ops|
    ensures Inv(g.(ops := Without(g.ops, op), committing := Without(g.ops, op) == []))
  {
    UnusedWithout(g.ops, op);
    UnusedBounds(g.ops);
  }

  lemma StepKeepsInv(size: int, g: Group, e: Event)
    requires Inv(g) && Enabled(g, e) && Step(size, g, e).Ok?
    ensures Inv(Step(size, g, e).g)
  {
    match e
    case Begin => if Admits(g) { BeginKeeps(g); }
    case LogWrite(op, b) => WriteKeeps(g, op, b);
    case End(op) => EndKeeps(g, op);
    case Committed => UnusedBounds(g.ops);
  }

  /** Group-commit safety in every interleaving: logged block numbers stay distinct, a commit runs
      only with no operation outstanding, and logged blocks plus unused reservations fit the log. */
  lemma {:induction false} EveryRunIsSafe(size: int, es: seq<Event>)
    ensures Run(size, es).Ok? ==> Inv(Run(size, es).g)
  {
    if es != [] {
      EveryRunIsSafe(size, es[..|es| - 1]);
      var before := Run(size, es[..|es| - 1]);
      if before.Ok? && Enabled(before.g, es[|es| - 1]) && Step(size, before.g, es[|es| - 1]).Ok? {
        StepKeepsInv(size, before.g, es[|es| - 1]);
      }
    }
  }

  /** The "log.committing" panic of end_op is unreachable, and no log_write can happen while a
      commit is in progress. */
  lemma NoPanicAtEnd(size: int, es: seq<Event>, op: nat, b: nat)
    requires Run(size, es).Ok?
    ensures var g := Run(size, es).g;
            && (Enabled(g, End(op)) ==> Step(size, g, End(op)).Ok?)
            && (g.committing ==> !Enabled(g, LogWrite(op, b)))
  {
    EveryRunIsSafe(size, es);
  }

  /** The last operation out starts the commit: in every run, once blocks are logged and no operation is
      outstanding, the log is committing; and while operations are outstanding it is not. */
  lemma {:induction false} LastOneCommits(size: int, es: seq<Event>)
    requires Run(size, es).Ok?
    ensures var g := Run(size, es).g;
            && (g.blocks != [] && g.ops == [] ==> g.committing) && (g.ops != [] ==> !g.committing)
  {
    EveryRunIsSafe(size, es);
    if es != [] {
      LastOneCommits(size, es[..|es| - 1]);
    }
  }

  /** end_op commits exactly when it ends the only operation outstanding, and keeps what was logged. */
  lemma EndCommitsExactlyWhen(size: int, es: seq<Event>, op: nat)
    requires Run(size, es).Ok? && Enabled(Run(size, es).g, End(op))
    ensures var g := Run(size, es).g;
            && Step(size, g, End(op)).Ok?
            && var g' := Step(size, g, End(op)).g;
               && |g'.ops| == |g.ops| - 1 && g'.blocks == g.blocks && (g'.committing <==> |g.ops| == 1)
  {
    EveryRunIsSafe(size, es);
  }

  // ---- the "too big a transaction" panic ----

  /** The event is not a log_write of a block the same operation has already logged. */
  predicate Fresh(g: Group, e: Event) {
    e.LogWrite? && e.op < |g.ops| ==> e.b !in g.ops[e.op]
  }

  /** No operation logs the same block twice in the run. */
  predicate FreshRun(size: int, es: seq<Event>) {
    forall k | 0 <= k < |es| :: Run(size, es[..k]).Ok? ==> Fresh(Run(size, es[..k]).g, es[k])
  }

  lemma FreshWriteFits(size: int, g: Group, op: nat, b: nat)
    requires Inv(g) && Enabled(g, LogWrite(op, b)) && Fresh(g, LogWrite(op, b))
    ensures |g.blocks| < LOGSIZE
  {
    UnusedBounds(g.ops);
    assert |g.ops[op] + {b}| == |g.ops[op]| + 1;
  }

  lemma {:induction false} FreshRunNeverPanics(size: int, es: seq<Event>)
    requires size > LOGSIZE && FreshRun(size, es)
    ensures Run(size, es).Ok?
  {
    if es != [] {
      var pre, e := es[..|es| - 1], es[|es| - 1];
      assert forall k | 0 <= k < |pre| :: pre[..k] == es[..k] && pre[k] == es[k];
      FreshRunNeverPanics(size, pre);
      EveryRunIsSafe(size, pre);
      var g := Run(size, pre).g;
      if Enabled(g, e) {
        match e
        case LogWrite(op, b) => FreshWriteFits(size, g, op, b);
        case _ =>
      }
    }
  }

  function Logger(b: nat): nat {
    if b < 10 then 0 else if b < 20 then 1 else 2
  }

  /** Three operations that between them log blocks 0, 1, 2, ...: operation Logger(i) logs block i. */
  function Fill(k: nat): seq<Event>
    requires k <= LOGSIZE
  {
    if k == 0 then [Begin, Begin, Begin] else Fill(k - 1) + [LogWrite(Logger(k - 1), k - 1)]
  }

  /** How many of the blocks below k operation i logs. */
  function Share(k: nat, i: nat): nat {
    if k < 10 * i then 0 else if k < 10 * i + 10 then k - 10 * i else 10
  }

  ghost predicate Filled(g: Group, k: nat) {
    && g.blocks == seq(k, i => i) && |g.ops| == 3 && !g.committing
    && forall i | 0 <= i < 3 :: |g.ops[i]| == Share(k, i) && forall b | b in g.ops[i] :: b < k
  }

  lemma {:induction false} FillRuns(size: int, k: nat)
    requires k <= LOGSIZE && (k == 0 || k <= size - 1)
    ensures Run(size, Fill(k)).Ok? && Filled(Run(size, Fill(k)).g, k)
  {
    if k == 0 {
      assert Fill(0)[..2] == [Begin, Begin] && [Begin, Begin][..1] == [Begin] && [Begin][..0] == [];
      assert Run(size, [Begin]) == Ok(Group([], [{}], false));
      assert Run(size, [Begin, Begin]) == Ok(Group([], [{}, {}], false));
      assert Run(size, Fill(0)) == Ok(Group([], [{}, {}, {}], false));
    } else {
      FillRuns(size, k - 1);
      FillWrite(size, Run(size, Fill(k - 1)).g, k);
      assert Fill(k)[..|Fill(k)| - 1] == Fill(k - 1);
    }
  }

  lemma FillWrite(size: int, g: Group, k: nat)
    requires 0 < k <= LOGSIZE && Filled(g, k - 1)
    ensures var e := LogWrite(Logger(k - 1), k - 1);
            && Enabled(g, e) && Fresh(g, e)
            && (k <= size - 1 ==> Step(size, g, e).Ok? && Filled(Step(size, g, e).g, k))
  {
    var op := Logger(k - 1);
    assert k - 1 !in g.ops[op];
    assert |g.ops[op] + {k - 1}| == |g.ops[op]| + 1;
    assert k - 1 !in g.blocks;
    assert g.blocks + [k - 1] == seq(k, i => i);
  }

  lemma {:induction false} FillIsFresh(size: int, k: nat)
    requires k <= LOGSIZE && (k <= 1 || k <= size)
    ensures FreshRun(size, Fill(k))
  {
    if k > 0 {
      FillIsFresh(size, k - 1);
      FillRuns(size, k - 1);
      FillWrite(size, Run(size, Fill(k - 1)).g, k);
      var es, pre := Fill(k), Fill(k - 1);
      forall j | 0 <= j < |es| && Run(size, es[..j]).Ok?
        ensures Fresh(Run(size, es[..j]).g, es[j])
      {
        if j < |pre| {
          assert es[..j] == pre[..j] && es[j] == pre[j];
        } else {
          assert es[..j] == pre;
        }
      }
    }
  }

  /** With every operation logging each block once, "too big a transaction" is unreachable exactly
      when the on-disk log has more than LOGSIZE blocks. mkfs makes it LOGSIZE blocks. */
  lemma FreshRunsFitExactlyWhen(size: int)
    ensures size > LOGSIZE <==> forall es | FreshRun(size, es) :: Run(size, es).Ok?
  {
    if size > LOGSIZE {
      forall es | FreshRun(size, es) ensures Run(size, es).Ok? {
        FreshRunNeverPanics(size, es);
      }
    } else {
      var k: nat := if size < 1 then 1 else size;
      FillIsFresh(size, k);
      FillRuns(size, k - 1);
      FillWrite(size, Run(size, Fill(k - 1)).g, k);
      assert Fill(k)[..|Fill(k)| - 1] == Fill(k - 1);
      assert Run(size, Fill(k)) == Panic;
    }
  }

  /** The capacity test comes before absorption, so a full log panics even for a block it holds,
      whatever the size of the on-disk log. */
  lemma RelogCanPanic(size: int)
    requires size > LOGSIZE
    ensures exists es, b ::
              && Run(size, es).Ok? && b in Run(size, es).g.blocks
              && Enabled(Run(size, es).g, LogWrite(0, b))
              && Step(size, Run(size, es).g, LogWrite(0, b)) == Panic
  {
    FillRuns(size, LOGSIZE);
    EveryRunIsSafe(size, Fill(LOGSIZE));
    var es, g := Fill(LOGSIZE), Run(size, Fill(LOGSIZE)).g;
    assert |g.ops[0]| == 10;
    var b :| b in g.ops[0];
    assert g.ops[0] + {b} == g.ops[0];
    assert Step(size, Run(size, es).g, LogWrite(0, b)) == Panic;
  }

  /** When log_write is safe: on a log larger than LOGSIZE, an enabled log_write panics exactly when
      the log is full, and then the operation is logging a block again and every outstanding operation has
      used its whole reservation. */
  lemma LogWritePanicsExactlyWhen(size: int, es: seq<Event>, op: nat, b: nat)
    requires size > LOGSIZE && Run(size, es).Ok? && Enabled(Run(size, es).g, LogWrite(op, b))
    ensures var g := Run(size, es).g;
            && (Step(size, g, LogWrite(op, b)) == Panic <==> |g.blocks| == LOGSIZE)
            && (Step(size, g, LogWrite(op, b)) == Panic ==>
                  b in g.ops[op] && forall i | 0 <= i < |g.ops| :: |g.ops[i]| == MAXOPBLOCKS)
  {
    EveryRunIsSafe(size, es);
    var g := Run(size, es).g;
    UnusedBounds(g.ops);
    if b !in g.ops[op] {
      FreshWriteFits(size, g, op, b);
    }
  }

  /** The event leaves its operation at least j blocks of its reservation. */
  predicate Spares(g: Group, e: Event, j: nat) {
    e.LogWrite? && Enabled(g, e) ==> |g.ops[e.op] + {e.b}| + j <= MAXOPBLOCKS
  }

  /** No operation in the run ever uses the last j blocks of its reservation. It may log a block again. */
  predicate SparingRun(size: int, j: nat, es: seq<Event>) {
    forall k | 0 <= k < |es| :: Run(size, es[..k]).Ok? ==> Spares(Run(size, es[..k]).g, es[k], j)
  }

  ghost predicate Spared(ops: seq<set<nat>>, j: nat) {
    forall i | 0 <= i < |ops| :: |ops[i]| + j <= MAXOPBLOCKS
  }

  lemma SparingStep(size: int, j: nat, g: Group, e: Event)
    requires 1 <= j <= MAXOPBLOCKS && size >= LOGSIZE + 2 - j
    requires Inv(g) && Spared(g.ops, j) && Enabled(g, e) && Spares(g, e, j)
    ensures Step(size, g, e).Ok? && Spared(Step(size, g, e).g.ops, j)
  {
    UnusedBounds(g.ops);
  }

  /** Operations that each leave j blocks of their reservation unused never meet "too big a transaction" on
      a log of at least LOGSIZE + 2 - j blocks, however often they log a block. On the LOGSIZE blocks
      mkfs makes, eight distinct blocks per operation are always safe. */
  lemma {:induction false} SparingRunNeverPanics(size: int, j: nat, es: seq<Event>)
    requires 1 <= j <= MAXOPBLOCKS && size >= LOGSIZE + 2 - j && SparingRun(size, j, es)
    ensures Run(size, es).Ok? && Spared(Run(size, es).g.ops, j)
  {
    if es != [] {
      var pre, e := es[..|es| - 1], es[|es| - 1];
      assert forall k | 0 <= k < |pre| :: pre[..k] == es[..k] && pre[k] == es[k];
      SparingRunNeverPanics(size, j, pre);
      EveryRunIsSafe(size, pre);
      if Enabled(Run(size, pre).g, e) {
        SparingStep(size, j, Run(size, pre).g, e);
      }
    }
  }
}
