/**
 The process table as a step system (allocproc, freeproc, fork, reparent, exit
 and wait in kernel/proc.c). A step is one section under wait_lock or a process
 lock; fork takes three. Slot 0 is the init process. The ghost history records
 which process exited with which status, and who was reaped.
 */
module ProcTree {
  datatype Status = Unused | Used | Sleeping | Runnable | Running | Zombie

  /** A slot of proc[]; the parent is a slot number, -1 for none. */
  datatype Slot = Slot(state: Status, pid: nat, parent: int, xstate: int)

  /** How far a process is in fork: which slot it has allocated, and whether it is its parent yet. */
  datatype Fork = NotForking | Allocated(child: nat) | Parented(child: nat)

  /** What a wait returned: a child's pid and status. */
  datatype Reap = Reap(pid: nat, xstate: int, reaper: nat)

  datatype Procs = Procs(slot: seq<Slot>, fork: seq<Fork>, nextpid: nat, exited: map<nat, int>, reaped: seq<Reap>)

  datatype Event =
    | Alloc(p: nat, child: nat, memory: bool)
    | CopyFails(p: nat)
    | SetParent(p: nat)
    | Start(p: nat)
    | Exit(p: nat, status: int)
    | Wait(p: nat, copied: bool)
    | Sched(p: nat, to: Status)

  predicate Alive(st: Status) {
    st in {Sleeping, Runnable, Running}
  }

  predicate Shape(s: Procs) {
    |s.slot| == |s.fork| > 0
  }

  /** After userinit: init alone. */
  function Boot(n: nat): Procs
    requires n > 0
  {
    Procs(seq(n, i => if i == 0 then Slot(Runnable, 1, -1, 0) else Slot(Unused, 0, -1, 0)),
          seq(n, _ => NotForking), 2, map[], [])
  }

  /** freeproc leaves this. */
  const FREED: Slot := Slot(Unused, 0, -1, 0)

  // ---- what the scans find ----

  predicate ZombieChild(sl: Slot, p: int) {
    sl.parent == p && sl.state == Zombie
  }

  predicate HasZombie(slot: seq<Slot>, p: int) {
    exists c :: 0 <= c < |slot| && ZombieChild(slot[c], p)
  }

  /** The first zombie child of p from i on, or the number of slots. */
  function FirstZombie(slot: seq<Slot>, p: nat, i: nat): (k: nat)
    requires i <= |slot|
    ensures i <= k <= |slot| && (k < |slot| ==> ZombieChild(slot[k], p))
    ensures forall j | i <= j < k :: !ZombieChild(slot[j], p)
    decreases |slot| - i
  {
    if i == |slot| || ZombieChild(slot[i], p) then i else FirstZombie(slot, p, i + 1)
  }

  /** All children of p become children of init. */
  function Orphaned(slot: seq<Slot>, p: nat): (r: seq<Slot>)
    ensures |r| == |slot|
    ensures forall i | 0 <= i < |slot| :: r[i] == if slot[i].parent == p then slot[i].(parent := 0) else slot[i]
  {
    seq(|slot|, i requires 0 <= i < |slot| => if slot[i].parent == p then slot[i].(parent := 0) else slot[i])
  }

  // ---- the steps ----

  /** p is running and not in the middle of fork. */
  predicate Ready(s: Procs, p: nat) {
    p < |s.slot| && p < |s.fork| && s.slot[p].state == Running && s.fork[p] == NotForking
  }

  function Step(s: Procs, e: Event): Procs
    requires Shape(s)
  {
    match e
    case Alloc(p, c, memory) => if Ready(s, p) && IsUnused(s, c) then AllocStep(s, p, c, memory) else s
    case CopyFails(p) =>
      if p < |s.slot| && s.fork[p].Allocated? && s.fork[p].child < |s.slot| then AbortStep(s, p) else s
    case SetParent(p) =>
      if p < |s.slot| && s.fork[p].Allocated? && s.fork[p].child < |s.slot| then ParentStep(s, p) else s
    case Start(p) => if p < |s.slot| && s.fork[p].Parented? && s.fork[p].child < |s.slot| then StartStep(s, p) else s
    case Exit(p, status) => if Ready(s, p) && p != 0 then ExitStep(s, p, status) else s
    case Wait(p, copied) => if Ready(s, p) && copied then WaitStep(s, p) else s
    case Sched(p, to) =>
      if p < |s.slot| && Alive(s.slot[p].state) && Alive(to) then SchedStep(s, p, to) else s
  }

  predicate IsUnused(s: Procs, c: nat) {
    c < |s.slot| && s.slot[c].state == Unused
  }

  /** allocproc on slot c: a pid is used up even when memory runs out and the slot is freed again. */
  function AllocStep(s: Procs, p: nat, c: nat, memory: bool): Procs
    requires Shape(s) && p < |s.slot| && c < |s.slot|
  {
    if !memory then s.(slot := s.slot[c := FREED], nextpid := s.nextpid + 1)
    else s.(slot := s.slot[c := s.slot[c].(state := Used, pid := s.nextpid)], nextpid := s.nextpid + 1,
            fork := s.fork[p := Allocated(c)])
  }

  function AbortStep(s: Procs, p: nat): Procs
    requires Shape(s) && p < |s.slot| && s.fork[p].Allocated? && s.fork[p].child < |s.slot|
  {
    s.(slot := s.slot[s.fork[p].child := FREED], fork := s.fork[p := NotForking])
  }

  function ParentStep(s: Procs, p: nat): Procs
    requires Shape(s) && p < |s.slot| && s.fork[p].Allocated? && s.fork[p].child < |s.slot|
  {
    var c := s.fork[p].child;
    s.(slot := s.slot[c := s.slot[c].(parent := p)], fork := s.fork[p := Parented(c)])
  }

  function StartStep(s: Procs, p: nat): Procs
    requires Shape(s) && p < |s.slot| && s.fork[p].Parented? && s.fork[p].child < |s.slot|
  {
    var c := s.fork[p].child;
    s.(slot := s.slot[c := s.slot[c].(state := Runnable)], fork := s.fork[p := NotForking])
  }

  function ExitStep(s: Procs, p: nat, status: int): Procs
    requires Shape(s) && p < |s.slot|
  {
    var slot := Orphaned(s.slot, p);
    s.(slot := slot[p := slot[p].(xstate := status, state := Zombie)], exited := s.exited[s.slot[p].pid := status])
  }

  /** The scheduler, sleep and wakeup move a live process between the live states. */
  function SchedStep(s: Procs, p: nat, to: Status): Procs
    requires Shape(s) && p < |s.slot|
  {
    s.(slot := s.slot[p := s.slot[p].(state := to)])
  }

  function WaitStep(s: Procs, p: nat): Procs
    requires Shape(s) && p < |s.slot|
  {
    var c := FirstZombie(s.slot, p, 0);
    if c == |s.slot| then s
    else s.(slot := s.slot[c := FREED],
            reaped := s.reaped + [Reap(s.slot[c].pid, s.slot[c].xstate, s.slot[p].pid)])
  }

  // ---- the invariant ----

  /** Pids of slots in use are distinct and were all handed out. */
  ghost predicate Pids(s: Procs) {
    && (forall i | 0 <= i < |s.slot| ::
          s.slot[i].pid < s.nextpid && (s.slot[i].state == Unused <==> s.slot[i].pid == 0))
    && (forall i, j | 0 <= i < j < |s.slot| && s.slot[i].state != Unused :: s.slot[i].pid != s.slot[j].pid)
  }

  predicate Born(st: Status) {
    Alive(st) || st == Zombie
  }

  predicate LiveParent(s: Procs, i: nat) {
    i < |s.slot| && 0 <= s.slot[i].parent < |s.slot| && Alive(s.slot[s.slot[i].parent].state)
  }

  /** Every process past fork other than init has a live parent; init is alive. */
  ghost predicate Parents(s: Procs) {
    && |s.slot| > 0 && Alive(s.slot[0].state)
    && (forall i: nat {:trigger LiveParent(s, i)} | 0 < i < |s.slot| && Born(s.slot[i].state) :: LiveParent(s, i))
    && (forall i | 0 <= i < |s.slot| && s.slot[i].state == Unused :: s.slot[i].parent == -1)
  }

  /** A process in fork is alive and has one child slot of its own, which nobody else touches. */
  ghost predicate Forks(s: Procs)
    requires Shape(s)
  {
    && (forall p | 0 <= p < |s.fork| && s.fork[p] != NotForking ::
          && Alive(s.slot[p].state) && s.fork[p].child < |s.slot| && s.slot[s.fork[p].child].state == Used
          && s.slot[s.fork[p].child].parent == if s.fork[p].Allocated? then -1 else p)
    && (forall p, q | 0 <= p < q < |s.fork| && s.fork[p] != NotForking && s.fork[q] != NotForking ::
          s.fork[p].child != s.fork[q].child)
  }

  /** Zombies are exactly the exited processes not yet reaped, and nobody is reaped twice or with a wrong
      status. */
  ghost predicate History(s: Procs) {
    && (forall i | 0 <= i < |s.slot| ::
          if s.slot[i].state == Zombie then s.slot[i].pid in s.exited && s.exited[s.slot[i].pid] == s.slot[i].xstate
          else s.slot[i].pid !in s.exited)
    && (forall k | 0 <= k < |s.reaped| ::
          s.reaped[k].pid in s.exited && s.exited[s.reaped[k].pid] == s.reaped[k].xstate)
    && (forall k, i | 0 <= k < |s.reaped| && 0 <= i < |s.slot| :: s.slot[i].pid != s.reaped[k].pid)
    && (forall j, k | 0 <= j < k < |s.reaped| :: s.reaped[j].pid != s.reaped[k].pid)
    && (forall pid | pid in s.exited :: 0 < pid < s.nextpid)
  }

  ghost predicate Inv(s: Procs) {
    Shape(s) && s.nextpid > 0 && Pids(s) && Parents(s) && Forks(s) && History(s)
  }

  lemma BootInv(n: nat)
    requires n > 0
    ensures Inv(Boot(n))
  {
  }

  lemma AllocKeepsRecords(s: Procs, p: nat, c: nat, memory: bool)
    requires Inv(s) && Ready(s, p) && IsUnused(s, c)
    ensures Pids(AllocStep(s, p, c, memory)) && History(AllocStep(s, p, c, memory))
  {
    hide Parents, Forks;
  }

  lemma UnusedHasNoParent(s: Procs, c: nat)
    requires Parents(s) && IsUnused(s, c)
    ensures s.slot[c].parent == -1
  {
  }

  lemma AllocKeepsForks(s: Procs, p: nat, c: nat, memory: bool)
    requires Inv(s) && Ready(s, p) && IsUnused(s, c)
    ensures Shape(AllocStep(s, p, c, memory)) && Forks(AllocStep(s, p, c, memory))
  {
    hide Pids, History, Parents;
    UnusedHasNoParent(s, c);
  }

  lemma AllocKeepsTree(s: Procs, p: nat, c: nat, memory: bool)
    requires Inv(s) && Ready(s, p) && IsUnused(s, c)
    ensures Parents(AllocStep(s, p, c, memory))
  {
    hide Pids, History, Forks;
    var s' := AllocStep(s, p, c, memory);
    forall i: nat | 0 < i < |s'.slot| && Born(s'.slot[i].state)
      ensures LiveParent(s', i)
    {
      assert Born(s.slot[i].state) ==> LiveParent(s, i);
    }
  }

  lemma AllocKeeps(s: Procs, p: nat, c: nat, memory: bool)
    requires Inv(s) && Ready(s, p) && IsUnused(s, c)
    ensures Inv(AllocStep(s, p, c, memory))
  {
    hide Pids, Parents, Forks, History;
    AllocKeepsRecords(s, p, c, memory);
    AllocKeepsForks(s, p, c, memory);
    AllocKeepsTree(s, p, c, memory);
  }

  lemma AbortKeepsRecords(s: Procs, p: nat)
    requires Inv(s) && p < |s.slot| && s.fork[p].Allocated? && s.fork[p].child < |s.slot|
    ensures Pids(AbortStep(s, p)) && History(AbortStep(s, p))
  {
    hide Parents;
  }

  lemma AbortKeepsTree(s: Procs, p: nat)
    requires Inv(s) && p < |s.slot| && s.fork[p].Allocated? && s.fork[p].child < |s.slot|
    ensures Shape(AbortStep(s, p)) && Parents(AbortStep(s, p)) && Forks(AbortStep(s, p))
  {
    hide Pids, History;
    var s' := AbortStep(s, p);
    forall i: nat | 0 < i < |s'.slot| && Born(s'.slot[i].state)
      ensures LiveParent(s', i)
    {
      assert Born(s.slot[i].state) ==> LiveParent(s, i);
    }
  }

  lemma AbortKeeps(s: Procs, p: nat)
    requires Inv(s) && p < |s.slot| && s.fork[p].Allocated? && s.fork[p].child < |s.slot|
    ensures Inv(AbortStep(s, p))
  {
    hide Pids, Parents, Forks, History;
    AbortKeepsRecords(s, p);
    AbortKeepsTree(s, p);
  }

  lemma ParentKeepsRecords(s: Procs, p: nat)
    requires Inv(s) && p < |s.slot| && s.fork[p].Allocated? && s.fork[p].child < |s.slot|
    ensures Pids(ParentStep(s, p)) && History(ParentStep(s, p))
  {
    hide Parents;
  }

  lemma ParentKeepsTree(s: Procs, p: nat)
    requires Inv(s) && p < |s.slot| && s.fork[p].Allocated? && s.fork[p].child < |s.slot|
    ensures Shape(ParentStep(s, p)) && Parents(ParentStep(s, p)) && Forks(ParentStep(s, p))
  {
    hide Pids, History;
    var s' := ParentStep(s, p);
    forall i: nat | 0 < i < |s'.slot| && Born(s'.slot[i].state)
      ensures LiveParent(s', i)
    {
      assert Born(s.slot[i].state) ==> LiveParent(s, i);
    }
  }

  lemma ParentKeeps(s: Procs, p: nat)
    requires Inv(s) && p < |s.slot| && s.fork[p].Allocated? && s.fork[p].child < |s.slot|
    ensures Inv(ParentStep(s, p))
  {
    hide Pids, Parents, Forks, History;
    ParentKeepsRecords(s, p);
    ParentKeepsTree(s, p);
  }

  lemma StartKeepsRecords(s: Procs, p: nat)
    requires Inv(s) && p < |s.slot| && s.fork[p].Parented? && s.fork[p].child < |s.slot|
    ensures Pids(StartStep(s, p)) && History(StartStep(s, p))
  {
    hide Parents;
  }

  lemma StartKeepsTree(s: Procs, p: nat)
    requires Inv(s) && p < |s.slot| && s.fork[p].Parented? && s.fork[p].child < |s.slot|
    ensures Shape(StartStep(s, p)) && Parents(StartStep(s, p)) && Forks(StartStep(s, p))
  {
    hide Pids, History;
    var s' := StartStep(s, p);
    forall i: nat | 0 < i < |s'.slot| && Born(s'.slot[i].state)
      ensures LiveParent(s', i)
    {
      assert Born(s.slot[i].state) ==> LiveParent(s, i);
    }
  }

  lemma StartKeeps(s: Procs, p: nat)
    requires Inv(s) && p < |s.slot| && s.fork[p].Parented? && s.fork[p].child < |s.slot|
    ensures Inv(StartStep(s, p))
  {
    hide Pids, Parents, Forks, History;
    StartKeepsRecords(s, p);
    StartKeepsTree(s, p);
  }

  lemma ExitKeepsRecords(s: Procs, p: nat, status: int)
    requires Inv(s) && Ready(s, p) && p != 0
    ensures Pids(ExitStep(s, p, status)) && History(ExitStep(s, p, status))
  {
    hide Parents, Forks;
  }

  lemma ExitKeepsForks(s: Procs, p: nat, status: int)
    requires Inv(s) && Ready(s, p) && p != 0
    ensures Shape(ExitStep(s, p, status)) && Forks(ExitStep(s, p, status))
  {
    hide Pids, History, Parents;
  }

  lemma ExitKeepsParents(s: Procs, p: nat, status: int)
    requires Inv(s) && Ready(s, p) && p != 0
    ensures Parents(ExitStep(s, p, status))
  {
    hide Pids, History, Forks;
    var s' := ExitStep(s, p, status);
    forall i: nat | 0 < i < |s'.slot| && Born(s'.slot[i].state)
      ensures LiveParent(s', i)
    {
      assert Born(s.slot[i].state) ==> LiveParent(s, i);
    }
  }

  /** After exit nobody has the exited process as its parent. */
  lemma ExitKeeps(s: Procs, p: nat, status: int)
    requires Inv(s) && Ready(s, p) && p != 0
    ensures Inv(ExitStep(s, p, status))
    ensures forall i | 0 <= i < |s.slot| :: ExitStep(s, p, status).slot[i].parent != p
  {
    hide Pids, Parents, Forks, History;
    ExitKeepsRecords(s, p, status);
    ExitKeepsForks(s, p, status);
    ExitKeepsParents(s, p, status);
  }

  lemma WaitKeepsRecords(s: Procs, p: nat)
    requires Inv(s) && Ready(s, p)
    ensures Pids(WaitStep(s, p)) && History(WaitStep(s, p))
  {
    hide Parents, Forks;
  }

  lemma WaitKeepsTree(s: Procs, p: nat)
    requires Inv(s) && Ready(s, p)
    ensures Shape(WaitStep(s, p)) && Parents(WaitStep(s, p)) && Forks(WaitStep(s, p))
  {
    hide Pids, History;
    var s' := WaitStep(s, p);
    forall i: nat | 0 < i < |s'.slot| && Born(s'.slot[i].state)
      ensures LiveParent(s', i)
    {
      assert Born(s.slot[i].state) ==> LiveParent(s, i);
    }
  }

  lemma WaitKeeps(s: Procs, p: nat)
    requires Inv(s) && Ready(s, p)
    ensures Inv(WaitStep(s, p))
  {
    hide Pids, Parents, Forks, History;
    WaitKeepsRecords(s, p);
    WaitKeepsTree(s, p);
  }

  lemma SchedKeepsRecords(s: Procs, p: nat, to: Status)
    requires Inv(s) && p < |s.slot| && Alive(s.slot[p].state) && Alive(to)
    ensures Pids(SchedStep(s, p, to)) && History(SchedStep(s, p, to))
  {
    hide Parents, Forks;
  }

  lemma SchedKeepsForks(s: Procs, p: nat, to: Status)
    requires Inv(s) && p < |s.slot| && Alive(s.slot[p].state) && Alive(to)
    ensures Shape(SchedStep(s, p, to)) && Forks(SchedStep(s, p, to))
  {
    hide Pids, History, Parents;
  }

  lemma SchedKeepsTree(s: Procs, p: nat, to: Status)
    requires Inv(s) && p < |s.slot| && Alive(s.slot[p].state) && Alive(to)
    ensures Parents(SchedStep(s, p, to))
  {
    hide Pids, History, Forks;
    var s' := SchedStep(s, p, to);
    forall i: nat | 0 < i < |s'.slot| && Born(s'.slot[i].state)
      ensures LiveParent(s', i)
    {
      assert Born(s.slot[i].state) ==> LiveParent(s, i);
    }
  }

  lemma SchedKeeps(s: Procs, p: nat, to: Status)
    requires Inv(s) && p < |s.slot| && Alive(s.slot[p].state) && Alive(to)
    ensures Inv(SchedStep(s, p, to))
  {
    hide Pids, Parents, Forks, History;
    SchedKeepsRecords(s, p, to);
    SchedKeepsForks(s, p, to);
    SchedKeepsTree(s, p, to);
  }

  lemma StepKeepsInv(s: Procs, e: Event)
    requires Inv(s)
    ensures Inv(Step(s, e)) && |Step(s, e).slot| == |s.slot|
  {
    hide Pids, Parents, Forks, History;
    match e
    case Alloc(p, c, memory) => if Ready(s, p) && IsUnused(s, c) { AllocKeeps(s, p, c, memory); }
    case CopyFails(p) => if p < |s.slot| && s.fork[p].Allocated? && s.fork[p].child < |s.slot| { AbortKeeps(s, p); }
    case SetParent(p) => if p < |s.slot| && s.fork[p].Allocated? && s.fork[p].child < |s.slot| { ParentKeeps(s, p); }
    case Start(p) => if p < |s.slot| && s.fork[p].Parented? && s.fork[p].child < |s.slot| { StartKeeps(s, p); }
    case Exit(p, status) => if Ready(s, p) && p != 0 { ExitKeeps(s, p, status); }
    case Wait(p, copied) => if Ready(s, p) { WaitKeeps(s, p); }
    case Sched(p, to) => if p < |s.slot| && Alive(s.slot[p].state) && Alive(to) { SchedKeeps(s, p, to); }
  }

  /** A zombie leaves the table only by a wait of its current parent, which gets the zombie's own pid and
      status. The only other thing that can happen to it is that its parent exits and init takes over. */
  lemma OnlyItsParentReaps(s: Procs, e: Event, c: nat)
    requires Inv(s) && c < |s.slot| && s.slot[c].state == Zombie && Step(s, e).slot[c] != s.slot[c]
    ensures || (e.Wait? && s.slot[c].parent == e.p && e.p < |s.slot| && Step(s, e).slot == s.slot[c := FREED]
                && Step(s, e).reaped == s.reaped + [Reap(s.slot[c].pid, s.slot[c].xstate, s.slot[e.p].pid)])
            || (e.Exit? && s.slot[c].parent == e.p && Step(s, e).slot[c] == s.slot[c].(parent := 0)
                && Step(s, e).reaped == s.reaped)
  {
    hide Pids, Parents, History;
    match e
    case Wait(p, copied) => assert Ready(s, p) && c == FirstZombie(s.slot, p, 0);
    case _ =>
  }

  /** And what a wait reports is a zombie child that has gone. */
  lemma ReapTakesAZombie(s: Procs, e: Event) returns (c: nat)
    requires Inv(s) && Step(s, e).reaped != s.reaped
    ensures e.Wait? && e.p < |s.slot| && c < |s.slot| && s.slot[c].state == Zombie && s.slot[c].parent == e.p
    ensures Step(s, e).reaped == s.reaped + [Reap(s.slot[c].pid, s.slot[c].xstate, s.slot[e.p].pid)]
    ensures Step(s, e).slot == s.slot[c := FREED]
  {
    c := FirstZombie(s.slot, e.p, 0);
  }

  // ---- whole runs ----

  function After(s: Procs, events: seq<Event>): Procs
    requires Inv(s)
    ensures Inv(After(s, events)) && |After(s, events).slot| == |s.slot|
  {
    if events == [] then s
    else
      StepKeepsInv(After(s, events[..|events| - 1]), events[|events| - 1]);
      Step(After(s, events[..|events| - 1]), events[|events| - 1])
  }

  /** In every run, whatever the interleaving: pids in use are distinct, every process past fork except
      init has a live parent, and every reaped process had exited with the status reported, once. */
  lemma EveryRunIsSafe(n: nat, events: seq<Event>)
    requires n > 0
    ensures Inv(Boot(n))
    ensures var s := After(Boot(n), events);
            && (forall i, j | 0 <= i < j < |s.slot| && s.slot[i].state != Unused :: s.slot[i].pid != s.slot[j].pid)
            && (forall i: nat | 0 < i < |s.slot| && Born(s.slot[i].state) :: LiveParent(s, i))
            && (forall k | 0 <= k < |s.reaped| ::
                  s.reaped[k].pid in s.exited && s.exited[s.reaped[k].pid] == s.reaped[k].xstate)
            && (forall j, k | 0 <= j < k < |s.reaped| :: s.reaped[j].pid != s.reaped[k].pid)
  {
    BootInv(n);
    var s := After(Boot(n), events);
    assert Pids(s) && Parents(s) && History(s);
  }

  /** Event j of the run was an exit of the process with this pid, with this status. */
  ghost predicate ExitedAt(n: nat, events: seq<Event>, j: nat, pid: nat, status: int)
    requires n > 0 && Inv(Boot(n))
  {
    && j < |events| && events[j].Exit? && events[j].status == status && events[j].p != 0
    && var s := After(Boot(n), events[..j]);
       Ready(s, events[j].p) && s.slot[events[j].p].pid == pid
  }

  lemma {:induction false} ExitedSometime(n: nat, events: seq<Event>, pid: nat) returns (j: nat)
    requires n > 0 && Inv(Boot(n)) && pid in After(Boot(n), events).exited
    ensures ExitedAt(n, events, j, pid, After(Boot(n), events).exited[pid])
    decreases |events|
  {
    hide Pids, Parents, Forks, History;
    var pre, e := events[..|events| - 1], events[|events| - 1];
    var s := After(Boot(n), pre);
    if e.Exit? && Ready(s, e.p) && e.p != 0 && s.slot[e.p].pid == pid {
      j := |events| - 1;
    } else {
      j := ExitedSometime(n, pre, pid);
      assert events[..j] == pre[..j];
    }
  }

  /** From the events alone: every status a wait reports was given to an earlier exit, by the process that
      had that pid and was running. */
  lemma ReapedHadExited(n: nat, events: seq<Event>, k: nat) returns (j: nat)
    requires n > 0 && Inv(Boot(n)) && k < |After(Boot(n), events).reaped|
    ensures var r := After(Boot(n), events).reaped[k]; ExitedAt(n, events, j, r.pid, r.xstate)
  {
    var s := After(Boot(n), events);
    assert History(s);
    j := ExitedSometime(n, events, s.reaped[k].pid);
  }

  /** The steps of fork: a process of its own with the next pid, then a child of p, then ready to run. */
  lemma ForkMakesAChild(s: Procs, p: nat, c: nat)
    requires Inv(s) && Ready(s, p) && IsUnused(s, c) && p != c
    ensures var s1 := Step(s, Alloc(p, c, true)); var s2 := Step(s1, SetParent(p)); var s3 := Step(s2, Start(p));
            && s1.slot == s.slot[c := s1.slot[c]] && s1.slot[c].state == Used && s1.slot[c].pid == s.nextpid
            && s1.nextpid == s.nextpid + 1
            && s3.slot == s.slot[c := s3.slot[c]] && s3.slot[c].state == Runnable && s3.slot[c].pid == s.nextpid
            && s3.slot[c].parent == p && s3.fork[p] == NotForking
  {
  }

  function Allocs(events: seq<Event>): nat {
    if events == [] then 0
    else Allocs(events[..|events| - 1]) + if events[|events| - 1].Alloc? then 1 else 0
  }

  /** nextpid is a 32-bit int: it counts allocations, so no pid wraps in a run with at most 2^31 - 3 of them. */
  lemma {:induction false} NextPidFits(n: nat, events: seq<Event>)
    requires n > 0
    ensures Inv(Boot(n)) && After(Boot(n), events).nextpid <= 2 + Allocs(events)
    ensures Allocs(events) <= 0x8000_0000 - 3 ==> After(Boot(n), events).nextpid < 0x8000_0000
  {
    hide Pids, Parents, Forks, History;
    BootInv(n);
    if events != [] {
      NextPidFits(n, events[..|events| - 1]);
    }
  }

  // ---- the loops ----

  datatype Waited = Reaped(pid: nat, xstate: int) | NoChildren | CopyFailed | Killed | MustSleep

  /** A zombie child of p with this pid and status has gone, and its slot is unused. */
  predicate ReapsOne(slot: seq<Slot>, slot': seq<Slot>, p: nat, pid: nat, xstate: int) {
    exists c ::
      && 0 <= c < |slot| == |slot'| && slot[c] == Slot(Zombie, pid, p, xstate) && slot'[c].state == Unused
      && slot' == slot[c := slot'[c]]
  }

  class Table {
    var slot: seq<Slot>
    var fork: seq<Fork>
    var nextpid: nat
    ghost var exited: map<nat, int>
    ghost var reaped: seq<Reap>

    ghost function S(): Procs
      reads this
    {
      Procs(slot, fork, nextpid, exited, reaped)
    }

    /** allocproc, called by p in fork: the first unused slot c, -1 if there is none. */
    method AllocProc(p: nat, memory: bool) returns (ok: bool, ghost c: int)
      requires Inv(S()) && Ready(S(), p)
      modifies this
      ensures Inv(S()) && (ok <==> memory && c != -1)
      ensures c == -1 ==> S() == old(S()) && forall j | 0 <= j < |slot| :: slot[j].state != Unused
      ensures c != -1 ==> 0 <= c && IsUnused(old(S()), c) && S() == AllocStep(old(S()), p, c, memory)
      ensures c != -1 ==> nextpid == old(nextpid) + 1 && |slot| == |old(slot)| && slot == old(slot)[c := slot[c]]
      ensures ok ==> slot[c].state == Used && slot[c].pid == old(nextpid)
      ensures c != -1 && !ok ==> slot[c].state == Unused && slot[c].pid == 0 && slot[c].parent == -1
      ensures forall j | 0 <= j < c :: old(slot)[j].state != Unused
    {
      hide Pids, Parents, Forks, History;
      ok, c := false, -1;
      var i := 0;
      while i < |slot|
        invariant 0 <= i <= |slot| && S() == old(S())
        invariant forall j | 0 <= j < i :: slot[j].state != Unused
      {
        if slot[i].state == Unused {
          AllocKeeps(S(), p, i, memory);
          c := i;
          slot := slot[i := slot[i].(pid := nextpid, state := Used)];
          nextpid := nextpid + 1;
          if !memory {
            slot := slot[i := FREED];
            assert slot == AllocStep(old(S()), p, i, memory).slot;
            return;
          }
          fork := fork[p := Allocated(i)];
          ok := true;
          return;
        }
        i := i + 1;
      }
    }

    /** reparent. */
    method Reparent(p: nat)
      modifies this`slot
      ensures slot == Orphaned(old(slot), p)
      ensures forall i | 0 <= i < |slot| ::
                slot[i].parent == if old(slot)[i].parent == p then 0 else old(slot)[i].parent
      ensures forall i | 0 <= i < |slot| :: slot[i] == old(slot)[i].(parent := slot[i].parent)
    {
      var i := 0;
      while i < |slot|
        invariant 0 <= i <= |slot| == |old(slot)|
        invariant forall j | 0 <= j < |slot| :: slot[j] == if j < i then Orphaned(old(slot), p)[j] else old(slot)[j]
      {
        if slot[i].parent == p {
          slot := slot[i := slot[i].(parent := 0)];
        }
        i := i + 1;
      }
    }

    /** exit of a process other than init. */
    method Exit(p: nat, status: int)
      requires Inv(S()) && Ready(S(), p) && p != 0
      modifies this
      ensures Inv(S()) && S() == ExitStep(old(S()), p, status)
      ensures |slot| == |old(slot)| && slot[p].xstate == status && slot[p].state == Zombie
      ensures slot[p].pid == old(slot)[p].pid && exited == old(exited)[old(slot)[p].pid := status]
      ensures forall i | 0 <= i < |slot| ::
                slot[i].parent == if old(slot)[i].parent == p then 0 else old(slot)[i].parent
      ensures forall i | 0 <= i < |slot| && i != p :: slot[i] == old(slot)[i].(parent := slot[i].parent)
    {
      hide Pids, Parents, Forks, History;
      ExitKeeps(S(), p, status);
      Reparent(p);
      exited := exited[slot[p].pid := status];
      slot := slot[p := slot[p].(xstate := status)];
      slot := slot[p := slot[p].(state := Zombie)];
      assert slot == ExitStep(old(S()), p, status).slot;
    }

    /** One pass of the loop in wait: reap the first zombie child, or say why there is none to reap. */
    method WaitScan(p: nat, copied: bool, killed: bool) returns (r: Waited)
      requires Inv(S()) && Ready(S(), p)
      modifies this
      ensures Inv(S()) && S() == if copied then WaitStep(old(S()), p) else old(S())
      ensures r.Reaped? ==> reaped == old(reaped) + [Reap(r.pid, r.xstate, old(slot)[p].pid)]
      ensures r.Reaped? ==> ReapsOne(old(slot), slot, p, r.pid, r.xstate)
      ensures !r.Reaped? ==> S() == old(S())
      ensures r.Reaped? <==> copied && HasZombie(old(slot), p)
      ensures r == CopyFailed <==> !copied && HasZombie(old(slot), p)
      ensures r == NoChildren <==> forall c | 0 <= c < |old(slot)| :: old(slot)[c].parent != p
      ensures r == Killed ==> killed && !HasZombie(slot, p)
      ensures r == MustSleep ==> !killed && !HasZombie(slot, p)
    {
      hide Pids, Parents, Forks, History;
      WaitKeeps(S(), p);
      var havekids := false;
      var c := 0;
      while c < |slot|
        invariant 0 <= c <= |slot| && S() == old(S())
        invariant FirstZombie(slot, p, 0) == FirstZombie(slot, p, c)
        invariant havekids <==> exists j :: 0 <= j < c && slot[j].parent == p
        invariant forall j | 0 <= j < c :: !ZombieChild(slot[j], p)
      {
        if slot[c].parent == p {
          havekids := true;
          if slot[c].state == Zombie {
            if !copied {
              return CopyFailed;
            }
            r := Reaped(slot[c].pid, slot[c].xstate);
            reaped := reaped + [Reap(slot[c].pid, slot[c].xstate, slot[p].pid)];
            slot := slot[c := FREED];
            return;
          }
        }
        c := c + 1;
      }
      r := if !havekids then NoChildren else if killed then Killed else MustSleep;
    }
  }
}
