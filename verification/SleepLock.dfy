/**
 Sleep locks over sleep and wakeup (kernel/sleeplock.c, kernel/proc.c) as a
 step system: any number of processes contend for one sleep lock, and a step is
 one lock operation or one lock-protected section of one process. The spin lock
 inside the sleep lock and the lock of each process are modelled; scheduling is
 arbitrary.
 */
module SleepLock {
  /** Where a process is in acquiresleep, sleep, releasesleep or wakeup. */
  datatype Pc =
    | Outside
    | WantLk          // acquiresleep: about to acquire lk->lk
    | Test            // holds lk->lk, about to test lk->locked
    | ToSleep         // holds lk->lk, about to acquire its own p->lock in sleep
    | Both            // holds both, about to release lk->lk
    | Drowsy          // holds p->lock, about to set chan and state
    | Marked          // state is SLEEPING; p->lock is released in the scheduler
    | Off             // switched out in sched
    | Back            // switched in again, holding p->lock
    | WantLkAgain     // about to reacquire lk->lk at the end of sleep
    | Taken           // locked and pid are set, about to release lk->lk
    | Critical        // holds the sleep lock
    | WantRelease     // releasesleep: about to acquire lk->lk
    | Clear           // holds lk->lk, about to clear locked
    | Scan(next: nat) // in wakeup, about to look at process `next`

  datatype State = State(pc: seq<Pc>, lk: int, locked: bool, pid: int, sleeping: seq<bool>)

  datatype Event = Begin(p: nat) | Run(p: nat) | Kill(p: nat)

  predicate Shape(s: State) {
    |s.sleeping| == |s.pc|
  }

  function Init(n: nat): State {
    State(seq(n, _ => Outside), -1, false, -1, seq(n, _ => false))
  }

  /** The process holds its own p->lock. */
  predicate HoldsOwn(pc: Pc) {
    pc in {Both, Drowsy, Marked, Back}
  }

  predicate HoldsLk(pc: Pc) {
    pc in {Test, ToSleep, Both, Taken, Clear} || pc.Scan?
  }

  /** The process is between taking the sleep lock and giving it up. */
  predicate Owns(pc: Pc) {
    pc in {Taken, Critical, WantRelease, Clear}
  }

  function At(s: State, p: nat, pc: Pc): State
    requires p < |s.pc|
  {
    State(s.pc[p := pc], s.lk, s.locked, s.pid, s.sleeping)
  }

  /** A process starts acquiresleep, takes its next step if it can, or is killed, which wakes it up. A step
      that has to wait for a lock leaves the state as it is. */
  function Step(s: State, e: Event): State
    requires Shape(s)
  {
    if e.p >= |s.pc| then s
    else match e
      case Begin(p) => if s.pc[p] == Outside then At(s, p, WantLk) else s
      case Kill(p) =>
        if !HoldsOwn(s.pc[p]) && s.sleeping[p] then s.(sleeping := s.sleeping[p := false]) else s
      case Run(p) => Advance(s, p)
  }

  function Advance(s: State, p: nat): State
    requires Shape(s) && p < |s.pc|
  {
    match s.pc[p]
    case Outside => s
    case WantLk => if s.lk == -1 then At(s, p, Test).(lk := p) else s
    case Test => if s.locked then At(s, p, ToSleep) else At(s, p, Taken).(locked := true, pid := p)
    case ToSleep => At(s, p, Both)
    case Both => At(s, p, Drowsy).(lk := -1)
    case Drowsy => At(s, p, Marked).(sleeping := s.sleeping[p := true])
    case Marked => At(s, p, Off)
    case Off => if s.sleeping[p] then s else At(s, p, Back)
    case Back => At(s, p, WantLkAgain)
    case WantLkAgain => if s.lk == -1 then At(s, p, Test).(lk := p) else s
    case Taken => At(s, p, Critical).(lk := -1)
    case Critical => At(s, p, WantRelease)
    case WantRelease => if s.lk == -1 then At(s, p, Clear).(lk := p) else s
    case Clear => At(s, p, Scan(0)).(locked := false, pid := -1)
    case Scan(i) =>
      if i >= |s.pc| then At(s, p, Outside).(lk := -1)
      else if i == p then At(s, p, Scan(i + 1))
      else if HoldsOwn(s.pc[i]) then s
      else At(s, p, Scan(i + 1)).(sleeping := s.sleeping[i := false])
  }

  /** A wakeup is on its way: some process is scanning and has not come to p yet. */
  ghost predicate WakeupComing(s: State, p: nat) {
    exists r: nat :: r < |s.pc| && s.pc[r].Scan? && s.pc[r].next <= p
  }

  /** p sleeps on the lock or has let go of lk->lk to do so. */
  predicate GoneToSleep(s: State, p: nat)
    requires Shape(s) && p < |s.pc|
  {
    s.pc[p] in {Drowsy, Marked} || s.sleeping[p]
  }

  /** Whoever has gone to sleep will be woken: the lock is held, so a release is still to come, or a
      release is scanning and has not come to the sleeper yet. */
  ghost predicate NoLostWakeup(s: State)
    requires Shape(s)
  {
    forall p: nat | p < |s.pc| && GoneToSleep(s, p) :: s.locked || WakeupComing(s, p)
  }

  ghost predicate Owned(s: State) {
    && (forall p: nat | p < |s.pc| :: Owns(s.pc[p]) <==> s.locked && s.pid == p)
    && (s.locked ==> 0 <= s.pid < |s.pc|)
  }

  ghost predicate LkHeld(s: State) {
    && -1 <= s.lk < |s.pc|
    && forall p: nat | p < |s.pc| :: HoldsLk(s.pc[p]) <==> s.lk == p
  }

  /** A process on its way to sleep under lk->lk has seen the lock held; only one in sleep is sleeping. */
  ghost predicate Places(s: State)
    requires Shape(s)
  {
    && (forall p: nat | p < |s.pc| && s.pc[p] in {ToSleep, Both} :: s.locked)
    && (forall p: nat | p < |s.pc| && s.sleeping[p] :: s.pc[p] in {Marked, Off})
    && (forall p: nat | p < |s.pc| && s.pc[p] == Marked :: s.sleeping[p])
  }

  ghost predicate Inv(s: State) {
    Shape(s) && Owned(s) && LkHeld(s) && Places(s) && NoLostWakeup(s)
  }

  lemma InitInv(n: nat)
    ensures Inv(Init(n))
  {
  }

  lemma StepKeepsShape(s: State, e: Event)
    requires Shape(s)
    ensures Shape(Step(s, e)) && |Step(s, e).pc| == |s.pc|
    ensures forall q: nat | q < |s.pc| && q != e.p :: Step(s, e).pc[q] == s.pc[q]
  {
  }

  lemma StepKeepsOwned(s: State, e: Event)
    requires Shape(s) && Owned(s)
    ensures Shape(Step(s, e)) && Owned(Step(s, e))
  {
    hide HoldsLk, HoldsOwn;
    StepKeepsShape(s, e);
  }

  lemma StepKeepsLk(s: State, e: Event)
    requires Shape(s) && LkHeld(s)
    ensures Shape(Step(s, e)) && LkHeld(Step(s, e))
  {
    hide HoldsOwn, Owns;
    StepKeepsShape(s, e);
  }

  /** Clearing the lock happens under lk->lk, so nobody is on the way to sleep meanwhile. */
  lemma ClearAlone(s: State, p: nat, q: nat)
    requires LkHeld(s) && p < |s.pc| && q < |s.pc| && s.pc[p] == Clear && p != q
    ensures !HoldsLk(s.pc[q])
  {
    assert HoldsLk(s.pc[p]);
  }

  lemma StepKeepsPlace(s: State, e: Event, p: nat)
    requires Inv(s) && p < |s.pc|
    ensures Shape(Step(s, e)) && p < |Step(s, e).pc|
    ensures Step(s, e).pc[p] in {ToSleep, Both} ==> Step(s, e).locked
    ensures Step(s, e).sleeping[p] ==> Step(s, e).pc[p] in {Marked, Off}
    ensures Step(s, e).pc[p] == Marked ==> Step(s, e).sleeping[p]
  {
    hide NoLostWakeup, Owned, LkHeld;
    StepKeepsShape(s, e);
    if e.p < |s.pc| && e.p != p && s.pc[e.p] == Clear {
      ClearAlone(s, e.p, p);
    }
  }

  lemma StepKeepsWakeup(s: State, e: Event, p: nat)
    requires Inv(s) && p < |s.pc| && Shape(Step(s, e)) && p < |Step(s, e).pc| && GoneToSleep(Step(s, e), p)
    ensures Step(s, e).locked || WakeupComing(Step(s, e), p)
  {
    hide Owned, LkHeld;
    var s' := Step(s, e);
    StepKeepsShape(s, e);
    if !s'.locked {
      if e.p < |s.pc| && e.Run? && s.pc[e.p] == Clear {
        assert s'.pc[e.p].Scan? && s'.pc[e.p].next <= p;
      } else {
        assert GoneToSleep(s, p) && !s.locked;
        var r: nat :| r < |s.pc| && s.pc[r].Scan? && s.pc[r].next <= p;
        assert s'.pc[r].Scan? && s'.pc[r].next <= p;
      }
    }
  }

  /** Every step keeps mutual exclusion and loses no wakeup. */
  lemma StepKeepsInv(s: State, e: Event)
    requires Inv(s)
    ensures Inv(Step(s, e)) && |Step(s, e).pc| == |s.pc|
  {
    hide Owned, LkHeld, GoneToSleep, WakeupComing, Advance;
    StepKeepsShape(s, e);
    StepKeepsOwned(s, e);
    StepKeepsLk(s, e);
    var s' := Step(s, e);
    forall p: nat | p < |s'.pc|
      ensures s'.pc[p] in {ToSleep, Both} ==> s'.locked
      ensures s'.sleeping[p] ==> s'.pc[p] in {Marked, Off}
      ensures s'.pc[p] == Marked ==> s'.sleeping[p]
    {
      StepKeepsPlace(s, e, p);
    }
    forall p: nat | p < |s'.pc| && GoneToSleep(s', p)
      ensures s'.locked || WakeupComing(s', p)
    {
      StepKeepsWakeup(s, e, p);
    }
  }

  // ---- whole runs ----

  function After(s: State, events: seq<Event>): State
    requires Shape(s)
    ensures Shape(After(s, events))
  {
    if events == [] then s else Step(After(s, events[..|events| - 1]), events[|events| - 1])
  }

  lemma {:induction false} RunKeepsInv(s: State, events: seq<Event>)
    requires Inv(s)
    ensures Inv(After(s, events)) && |After(s, events).pc| == |s.pc|
  {
    if events != [] {
      RunKeepsInv(s, events[..|events| - 1]);
      StepKeepsInv(After(s, events[..|events| - 1]), events[|events| - 1]);
    }
  }

  /** In every run at most one process holds the sleep lock, and nobody sleeps on a lock that is free
      unless a wakeup is coming. */
  lemma EveryRunIsSafe(n: nat, events: seq<Event>)
    ensures var s := After(Init(n), events);
            && (forall p: nat, q: nat | p < q < |s.pc| :: !(s.pc[p] == Critical && s.pc[q] == Critical))
            && (forall p: nat | p < |s.pc| && s.sleeping[p] :: s.locked || WakeupComing(s, p))
  {
    InitInv(n);
    RunKeepsInv(Init(n), events);
    var s := After(Init(n), events);
    forall p: nat, q: nat | p < q < |s.pc|
      ensures !(s.pc[p] == Critical && s.pc[q] == Critical)
    {
      assert Owns(s.pc[p]) ==> s.pid == p;
      assert Owns(s.pc[q]) ==> s.pid == q;
    }
  }

  /** holdingsleep(lk), called by p, answers truly. */
  predicate HoldingSleep(s: State, p: nat) {
    s.locked && s.pid == p
  }

  lemma HoldingSleepIsRight(n: nat, events: seq<Event>, p: nat)
    requires p < n
    ensures var s := After(Init(n), events); |s.pc| == n && (HoldingSleep(s, p) <==> Owns(s.pc[p]))
  {
    InitInv(n);
    RunKeepsInv(Init(n), events);
  }

  // ---- acquiresleep returns with the lock ----

  /** Between the call of acquiresleep and its return. */
  predicate Acquiring(pc: Pc) {
    pc in {WantLk, Test, ToSleep, Both, Drowsy, Marked, Off, Back, WantLkAgain, Taken}
  }

  /** The test decides: with the lock held the process goes to sleep, with the lock free it owns it. */
  lemma TestDecides(s: State, p: nat)
    requires Inv(s) && p < |s.pc| && s.pc[p] == Test
    ensures var s' := Step(s, Run(p));
            && Shape(s') && |s'.pc| == |s.pc|
            && (if s.locked then s'.pc[p] == ToSleep && s'.locked && s'.pid == s.pid
                else s'.pc[p] == Taken && s'.locked && s'.pid == p)
  {
  }

  /** A process leaves acquiresleep only into its critical section, and that only by releasesleep, which
      clears the lock and looks at every process before it returns. */
  lemma WayThrough(s: State, e: Event, p: nat)
    requires Inv(s) && p < |s.pc|
    ensures |Step(s, e).pc| == |s.pc|
    ensures var pc, pc' := s.pc[p], Step(s, e).pc[p];
            && (Acquiring(pc) ==> Acquiring(pc') || (pc == Taken && pc' == Critical))
            && (pc == Critical ==> pc' in {Critical, WantRelease})
            && (pc == WantRelease ==> pc' in {WantRelease, Clear})
            && (pc == Clear && pc' != Clear ==> pc' == Scan(0) && !Step(s, e).locked)
            && (pc != Outside && pc' == Outside ==> pc.Scan? && pc.next >= |s.pc|)
  {
    StepKeepsShape(s, e);
  }

  /** In every run: a process that is out again at time b after it was acquiring at time a has held the lock
      in between. */
  lemma {:induction false} OutOnlyAfterHavingIt(n: nat, events: seq<Event>, p: nat, a: nat, b: nat) returns (k: nat)
    requires p < n && a <= b <= |events|
    requires |After(Init(n), events[..a]).pc| == n && Acquiring(After(Init(n), events[..a]).pc[p])
    ensures |After(Init(n), events[..b]).pc| == n && k <= |events| && |After(Init(n), events[..k]).pc| == n
    ensures || Acquiring(After(Init(n), events[..b]).pc[p])
            || (var s := After(Init(n), events[..k]); a < k <= b && s.pc[p] == Critical && s.locked && s.pid == p)
    decreases b
  {
    InitInv(n);
    RunKeepsInv(Init(n), events[..b]);
    k := a;
    if a < b {
      k := OutOnlyAfterHavingIt(n, events, p, a, b - 1);
      RunKeepsInv(Init(n), events[..b - 1]);
      assert events[..b][..b - 1] == events[..b - 1];
      var s := After(Init(n), events[..b - 1]);
      WayThrough(s, events[b - 1], p);
      if Acquiring(s.pc[p]) && !Acquiring(After(Init(n), events[..b]).pc[p]) {
        k := b;
        assert Owns(After(Init(n), events[..b]).pc[p]);
      }
    }
  }

  // ---- no deadlock ----

  /** The process can take a step. */
  predicate CanStep(s: State, p: nat)
    requires Shape(s)
  {
    p < |s.pc| && Advance(s, p) != s
  }

  lemma HolderOrBlockerSteps(s: State, h: nat) returns (q: nat)
    requires Inv(s) && s.lk == h
    ensures CanStep(s, q)
  {
    assert h < |s.pc| && HoldsLk(s.pc[h]);
    q := h;
    if s.pc[h].Scan? && s.pc[h].next < |s.pc| && s.pc[h].next != h && HoldsOwn(s.pc[s.pc[h].next]) {
      q := s.pc[h].next;
      assert !HoldsLk(s.pc[q]);
      assert Advance(s, q).pc[q] != s.pc[q];
    } else {
      assert Advance(s, q).pc[q] != s.pc[q];
    }
  }

  lemma OwnerSteps(s: State)
    requires Inv(s) && s.lk == -1 && s.locked
    ensures 0 <= s.pid && CanStep(s, s.pid)
  {
    var o: nat := s.pid;
    assert Owns(s.pc[o]) && !HoldsLk(s.pc[o]);
    assert Advance(s, o).pc[o] != s.pc[o];
  }

  /** As long as some process is inside acquiresleep, releasesleep or its critical section, some process
      can go on: the protocol never deadlocks. */
  lemma NoDeadlock(n: nat, events: seq<Event>, p: nat) returns (q: nat)
    requires p < n && |After(Init(n), events).pc| == n && After(Init(n), events).pc[p] != Outside
    ensures CanStep(After(Init(n), events), q)
  {
    var s := After(Init(n), events);
    InitInv(n);
    RunKeepsInv(Init(n), events);
    if s.lk != -1 {
      q := HolderOrBlockerSteps(s, s.lk);
    } else if s.sleeping[p] {
      assert GoneToSleep(s, p);
      assert !WakeupComing(s, p) by {
        forall r: nat | r < |s.pc|
          ensures !s.pc[r].Scan?
        {
          assert !HoldsLk(s.pc[r]);
        }
      }
      OwnerSteps(s);
      q := s.pid;
    } else {
      q := p;
      assert !HoldsLk(s.pc[p]);
      assert Advance(s, p).pc[p] != s.pc[p];
    }
  }
}
