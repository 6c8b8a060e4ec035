/**
 The signal queue of a process and its delivery (kernel/signal.h, and
 send_signal and handle_signals in kernel/proc.c).
 */
module Signals {
  const MAX_SIGNALS: nat := 512
  const SIGNAL_CATCHABLE_COUNT: nat := 2  // SIGNAL_ALARM and SIGNAL_MESSAGE
  const SIGNAL_KILL: nat := 3
  const SIGNAL_HANDLER_IGNORE: int := -1
  const SIGNAL_HANDLER_TERMINATE: int := -2
  const TWO31: nat := 0x8000_0000
  const TWO32: nat := 0x1_0000_0000
  const TWO64: nat := TWO32 * TWO32
  const SIGNALRET: nat := 0x3F_FFFF_D000
  const SIGNALSTACK: nat := 0x3F_FFFF_C000
  const PGSIZE: nat := 4096

  datatype Signal = Signal(kind: nat, sender: int, payload: nat)

  /** The user registers saved on a trap; the ones not named here are together in `rest`. */
  datatype Trapframe = Trapframe(epc: int, ra: nat, sp: nat, gp: nat, a0: nat, a1: nat, rest: seq<nat>)

  datatype Context = Context(ra: nat, sp: int, saved: seq<nat>)

  datatype State = Running | Runnable | Sleeping | Zombie

  /** What a custom handler does before it yields: any signals may arrive meanwhile, handlers may be
      replaced, and the saved registers, the state and the kill flag may be anything. */
  datatype Run = Run(arrivals: seq<Signal>, handlers: seq<int>, trapframe: Trapframe, context: Context, kstack: nat,
                     state: State, killed: bool)

  /** One signal has been delivered: how many custom handlers had been started before it, whether it
      started one and with which registers, and the result. */
  datatype Delivery = Delivery(signal: Signal, used: nat, started: bool, frame: Trapframe, result: int)

  datatype Result = Alive | Dead | NoReturn | Panicked

  /** The slot of the k-th waiting signal. */
  function Slot(read: nat, k: nat): (r: nat)
    ensures r < MAX_SIGNALS
  {
    (read + k) % MAX_SIGNALS
  }

  /** A 64-bit register read as an int. */
  function ToInt(x: nat): int {
    if x % TWO32 < TWO31 then x % TWO32 else x % TWO32 - TWO32
  }

  /** The signal has a handler in user space. */
  predicate IsCustom(s: Signal, handlers: seq<int>)
    requires |handlers| == SIGNAL_CATCHABLE_COUNT
  {
    s.kind < SIGNAL_CATCHABLE_COUNT && handlers[s.kind] !in {SIGNAL_HANDLER_IGNORE, SIGNAL_HANDLER_TERMINATE}
  }

  /** The results of the kernel's own handlers. */
  predicate BuiltIn(s: Signal, handlers: seq<int>, result: int)
    requires |handlers| == SIGNAL_CATCHABLE_COUNT
  {
    && (s.kind < SIGNAL_CATCHABLE_COUNT && handlers[s.kind] == SIGNAL_HANDLER_IGNORE ==> result == 0)
    && (s.kind < SIGNAL_CATCHABLE_COUNT && handlers[s.kind] == SIGNAL_HANDLER_TERMINATE ==> result == -1)
    && (s.kind >= SIGNAL_CATCHABLE_COUNT ==> result == if s.kind == SIGNAL_KILL then -1 else 0)
  }

  /** A handler starts at its own address with its signal in the argument registers, on the signal stack,
      and returns to the code that ends it. */
  predicate StartsAt(s: Signal, handler: int, gp: nat, frame: Trapframe) {
    && frame.epc == handler && frame.ra == SIGNALRET && frame.sp == SIGNALSTACK + PGSIZE && frame.gp == gp
    && frame.a0 < TWO64 && frame.a0 % TWO32 == s.kind % TWO32 && frame.a0 / TWO32 == s.sender % TWO32
    && frame.a1 == s.payload && frame.rest == []
  }

  /** A handler that has come back counts for the signed low half of its a0, one that went to sleep for -1,
      one that is gone for 0. */
  predicate CountsAs(run: Run, result: int) {
    && (run.state == Runnable ==> 0 - TWO31 <= result < TWO31 && (result - run.trapframe.a0) % TWO32 == 0)
    && (run.state == Sleeping ==> result == -1)
    && (run.state !in {Runnable, Sleeping} ==> result == 0)
  }

  lemma ToIntCounts(run: Run)
    requires run.state == Runnable
    ensures CountsAs(run, ToInt(run.trapframe.a0))
  {
    var a := run.trapframe.a0;
    assert a == a / TWO32 * TWO32 + a % TWO32;
    SameModulo(a / TWO32);
    SameModulo(a / TWO32 + 1);
  }

  lemma SameModulo(k: int)
    ensures (-(k * TWO32)) % TWO32 == 0
  {
    assert -(k * TWO32) == (-k) * TWO32 + 0;
  }

  /** The handlers in force once `used` custom handlers have run. */
  function InForce(handlers: seq<int>, runs: seq<Run>, used: nat): seq<int>
    requires used <= |runs|
  {
    if used == 0 then handlers
    else if |runs[used - 1].handlers| == SIGNAL_CATCHABLE_COUNT then runs[used - 1].handlers
    else InForce(handlers, runs, used - 1)
  }

  /** The signal was answered as the handlers say. */
  ghost predicate Answered(d: Delivery, handlers: seq<int>, runs: seq<Run>, gp: nat) {
    && |handlers| == SIGNAL_CATCHABLE_COUNT && d.started == IsCustom(d.signal, handlers)
    && (d.started ==> StartsAt(d.signal, handlers[d.signal.kind], gp, d.frame))
    && (d.started && d.used < |runs| ==> CountsAs(runs[d.used], d.result))
    && (!d.started ==> BuiltIn(d.signal, handlers, d.result))
  }

  /** The signals popped since lo were answered in order, each by the handlers then in force; the j-th custom
      handler is the j-th run. */
  ghost predicate Served(trace: seq<Delivery>, popped: seq<Signal>, lo: nat, handlers: seq<int>, runs: seq<Run>,
                         gp: nat)
  {
    && |popped| == lo + |trace|
    && forall k: nat | k < |trace| ::
         && trace[k].signal == popped[lo + k] && trace[k].used == Started(trace[..k]) <= |runs|
         && Answered(trace[k], InForce(handlers, runs, trace[k].used), runs, gp)
  }

  /** How many custom handlers were started. */
  function Started(trace: seq<Delivery>): nat {
    if trace == [] then 0 else Started(trace[..|trace| - 1]) + if trace[|trace| - 1].started then 1 else 0
  }

  lemma ServedNothing(popped: seq<Signal>, handlers: seq<int>, runs: seq<Run>, gp: nat)
    ensures Served([], popped, |popped|, handlers, runs, gp)
  {
  }

  lemma ServedMore(trace: seq<Delivery>, popped: seq<Signal>, d: Delivery, lo: nat, handlers: seq<int>, runs: seq<Run>,
                   gp: nat)
    requires Served(trace, popped, lo, handlers, runs, gp) && d.used == Started(trace) <= |runs|
    requires Answered(d, InForce(handlers, runs, d.used), runs, gp)
    ensures Served(trace + [d], popped + [d.signal], lo, handlers, runs, gp)
    ensures Started(trace + [d]) == Started(trace) + if d.started then 1 else 0
  {
    hide Answered, InForce;
    var more := trace + [d];
    assert more[..|trace|] == trace;
    forall k: nat | k < |more|
      ensures more[..k] == if k == |trace| then trace else trace[..k]
    {
    }
  }

  /** The registers a handler starts with. */
  function HandlerFrame(s: Signal, handler: int, gp: nat): Trapframe {
    Trapframe(handler, SIGNALRET, SIGNALSTACK + PGSIZE, gp, s.sender % TWO32 * TWO32 + s.kind, s.payload, [])
  }

  ghost predicate AllZero(trace: seq<Delivery>, n: int) {
    forall k: nat | k < n && k < |trace| :: trace[k].result == 0
  }

  /** The handler finds its signal's kind and sender in the two halves of its first argument. */
  lemma HandlerArguments(s: Signal, handler: int, gp: nat)
    requires s.kind < SIGNAL_CATCHABLE_COUNT
    ensures HandlerFrame(s, handler, gp).a0 % TWO32 == s.kind
    ensures HandlerFrame(s, handler, gp).a0 / TWO32 == s.sender % TWO32
    ensures HandlerFrame(s, handler, gp).a0 < TWO64
  {
  }

  // ---- finding the receiver ----

  /** The loop of send_signal that looks for the receiver: the last slot with that pid, -1 if none. */
  method FindReceiver(pids: seq<int>, pid: int) returns (r: int)
    ensures r == -1 <==> pid !in pids
    ensures r != -1 ==> 0 <= r < |pids| && pids[r] == pid && forall i | r < i < |pids| :: pids[i] != pid
  {
    r := -1;
    var i := 0;
    while i < |pids|
      invariant 0 <= i <= |pids| && -1 <= r < i
      invariant r == -1 <==> pid !in pids[..i]
      invariant r != -1 ==> pids[r] == pid && forall k | r < k < i :: pids[k] != pid
    {
      if pids[i] == pid {
        r := i;
      }
      i := i + 1;
    }
    assert pids[..i] == pids;
  }

  class Process {
    const queue: array<Signal>
    const isInit: bool
    var read: nat
    var write: nat
    var count: nat
    var handlers: seq<int>
    var inHandler: bool
    var trapframe: Trapframe
    var context: Context
    var kstack: nat
    var state: State
    var killed: bool
    var xstate: int
    /** The process lock is held. */
    var locked: bool
    /** Every signal ever accepted, and every one ever popped. */
    ghost var accepted: seq<Signal>
    ghost var popped: seq<Signal>

    /** The ring holds the signals accepted and not yet popped, oldest first. */
    ghost predicate Valid()
      reads this, queue
    {
      && queue.Length == MAX_SIGNALS && |handlers| == SIGNAL_CATCHABLE_COUNT
      && read < MAX_SIGNALS && count <= MAX_SIGNALS - 1 && write == Slot(read, count)
      && popped <= accepted && |accepted| == |popped| + count
      && forall k: nat | k < count :: queue[Slot(read, k)] == accepted[|popped| + k]
    }

    constructor (isInit: bool, kstack: nat, trapframe: Trapframe, context: Context)
      ensures Valid() && fresh(queue) && accepted == [] && popped == []
      ensures handlers == [SIGNAL_HANDLER_IGNORE, SIGNAL_HANDLER_IGNORE]
    {
      queue := new Signal[MAX_SIGNALS](_ => Signal(0, 0, 0));
      this.isInit, this.kstack, this.trapframe, this.context := isInit, kstack, trapframe, context;
      read, write, count, handlers := 0, 0, 0, [SIGNAL_HANDLER_IGNORE, SIGNAL_HANDLER_IGNORE];
      inHandler, state, killed, xstate, accepted, popped := false, Runnable, false, 0, [], [];
    }

    /** The end of send_signal: 0 and the signal is queued, or 1 when 511 signals are waiting. */
    method Enqueue(s: Signal) returns (code: nat)
      requires Valid()
      modifies this`write, this`count, this`accepted, queue
      ensures Valid() && (code == 1 <==> old(count) == MAX_SIGNALS - 1) && (code == 0 || code == 1)
      ensures code == 0 ==> accepted == old(accepted) + [s] && count == old(count) + 1
      ensures code == 1 ==> accepted == old(accepted) && count == old(count)
    {
      if count + 1 < MAX_SIGNALS {
        RingSlots(read, count);
        queue[write] := s;
        write := (write + 1) % MAX_SIGNALS;
        count := count + 1;
        accepted := accepted + [s];
        return 0;
      }
      code := 1;
    }

    /** send_signal once the receiver is found. The lock is not taken for a signal to oneself; a full queue
        leaves it held. */
    method Accept(s: Signal, toSelf: bool) returns (code: nat)
      requires Valid() && (!toSelf ==> !locked)
      modifies this`write, this`count, this`accepted, this`locked, queue
      ensures Valid() && (code == 1 <==> old(count) == MAX_SIGNALS - 1) && (code == 0 || code == 1)
      ensures accepted == old(accepted) + if code == 0 then [s] else []
      ensures locked == if toSelf then old(locked) else code == 1
    {
      if !toSelf {
        locked := true;
      }
      code := Enqueue(s);
      if code == 1 {
        return;
      }
      if !toSelf {
        locked := false;
      }
    }

    /** The oldest waiting signal leaves the queue. */
    method Pop() returns (s: Signal)
      requires Valid() && count > 0
      modifies this`read, this`count, this`popped
      ensures Valid() && count == old(count) - 1
      ensures popped == old(popped) + [s] && s == accepted[|old(popped)|]
    {
      s := queue[read];
      assert Slot(read, 0) == read;
      SlotAfter(read, count - 1);
      ghost var next := (read + 1) % MAX_SIGNALS;
      forall k: nat | k < count - 1
        ensures queue[Slot(next, k)] == accepted[|popped| + 1 + k]
      {
        SlotAfter(read, k);
      }
      read := (read + 1) % MAX_SIGNALS;
      count := count - 1;
      popped := popped + [s];
    }

    /** A custom handler runs: whatever it does, the queue stays in order. */
    method RunHandler(run: Run)
      requires Valid()
      modifies this, queue
      ensures Valid() && old(accepted) <= accepted && popped == old(popped) && xstate == old(xstate)
      ensures trapframe == run.trapframe && context == run.context && state == run.state && killed == run.killed
      ensures handlers == if |run.handlers| == SIGNAL_CATCHABLE_COUNT then run.handlers else old(handlers)
    {
      var i := 0;
      while i < |run.arrivals|
        invariant 0 <= i <= |run.arrivals| && Valid() && old(accepted) <= accepted && popped == old(popped)
        invariant xstate == old(xstate) && handlers == old(handlers)
      {
        var code := Enqueue(run.arrivals[i]);
        i := i + 1;
      }
      if |run.handlers| == SIGNAL_CATCHABLE_COUNT {
        handlers := run.handlers;
      }
      trapframe, context, kstack, state, killed := run.trapframe, run.context, run.kstack, run.state, run.killed;
    }

    /** exit_from_signal, as far as the signal loop sees it. */
    method ExitFromSignal(status: int) returns (panicked: bool)
      modifies this`xstate, this`state
      ensures panicked == isInit
      ensures if isInit then xstate == old(xstate) && state == old(state) else xstate == status && state == Zombie
    {
      if isInit {
        return true;
      }
      xstate, state := status, Zombie;
      panicked := false;
    }

    /** Delivery of one signal. IGNORE gives 0, TERMINATE and KILL give -1; a custom handler is started with
        the signal in its registers and gives what its run leaves behind. */
    method Deliver(s: Signal, stack: nat, ctx: Context, oldKstack: nat, gp: nat, runs: seq<Run>, used: nat)
      returns (result: int, next: nat, ghost start: Trapframe)
      requires Valid() && used <= |runs| && context == ctx
      modifies this, queue
      ensures Valid() && old(accepted) <= accepted && popped == old(popped) && xstate == old(xstate) && context == ctx
      ensures s.kind < 2 && old(handlers)[s.kind] == SIGNAL_HANDLER_IGNORE ==> result == 0
      ensures s.kind < 2 && old(handlers)[s.kind] == SIGNAL_HANDLER_TERMINATE ==> result == -1
      ensures s.kind >= 2 ==> result == if s.kind == SIGNAL_KILL then -1 else 0
      ensures next == used + if IsCustom(s, old(handlers)) then 1 else 0
      ensures next == used ==> unchanged(this) && unchanged(queue)
      ensures next > used ==> StartsAt(s, old(handlers)[s.kind], gp, start)
      ensures next > used && used < |runs| ==>
                && CountsAs(runs[used], result) && killed == runs[used].killed
                && state == (if runs[used].state == Runnable then Running else runs[used].state)
                && handlers == InForce(old(handlers), runs[used..used + 1], 1)
    {
      result, next, start := 0, used, trapframe;
      if s.kind < SIGNAL_CATCHABLE_COUNT {
        if handlers[s.kind] == SIGNAL_HANDLER_IGNORE {
          result := 0;
        } else if handlers[s.kind] == SIGNAL_HANDLER_TERMINATE {
          result := -1;
        } else {
          next := used + 1;
          context := context.(sp := stack + (context.sp - oldKstack));
          HandlerArguments(s, handlers[s.kind], gp);
          trapframe := HandlerFrame(s, handlers[s.kind], gp);
          start := trapframe;
          if used < |runs| {
            RunHandler(runs[used]);
            if state == Runnable {
              state := Running;
              ToIntCounts(runs[used]);
              result := ToInt(trapframe.a0);
            } else if state == Sleeping {
              result := -1;
            }
          }
          context := ctx;
        }
      } else if s.kind == SIGNAL_KILL {
        result := -1;
      }
    }

    /** How a round of deliveries ended: all results are 0 but the last; a handler without a run does not
        return; and a last result other than 0 has ended the process with that status. */
    ghost predicate Ended(res: Result, trace: seq<Delivery>, runs: seq<Run>)
      reads this
    {
      && AllZero(trace, |trace| - 1) && (res == NoReturn <==> Started(trace) > |runs|)
      && (trace == [] || trace[|trace| - 1].result == 0 ==> res != Panicked)
      && (trace != [] && trace[|trace| - 1].result != 0 && res != NoReturn ==>
            if isInit then res == Panicked else res == Dead && state == Zombie && xstate == trace[|trace| - 1].result)
    }

    /** One turn of it: the oldest signal is popped and delivered. */
    method HandleOne(stack: nat, tf: Trapframe, ctx: Context, oldKstack: nat, runs: seq<Run>, used: nat,
                     ghost lo: nat, ghost hs: seq<int>, ghost trace: seq<Delivery>)
      returns (result: int, next: nat, ghost d: Delivery)
      requires Valid() && count > 0 && context == ctx && used == Started(trace) <= |runs|
      requires Served(trace, popped, lo, hs, runs, tf.gp) && handlers == InForce(hs, runs, used)
      modifies this, queue
      ensures Valid() && old(accepted) <= accepted && popped == old(popped) + [d.signal] && context == ctx
      ensures d.result == result && next == Started(trace + [d]) && used <= next <= used + 1
      ensures next == used ==> count == old(count) - 1
      ensures next <= |runs| ==> handlers == InForce(hs, runs, next)
      ensures Served(trace + [d], popped, lo, hs, runs, tf.gp)
    {
      hide Served, StartsAt, CountsAs, ToInt, Slot;
      var s := Pop();
      ghost var start;
      result, next, start := Deliver(s, stack, ctx, oldKstack, tf.gp, runs, used);
      d := Delivery(s, used, next > used, start, result);
      ServedMore(trace, old(popped), d, lo, hs, runs, tf.gp);
    }

    /** The loop of handle_signals. */
    method Drain(stack: nat, tf: Trapframe, ctx: Context, oldKstack: nat, runs: seq<Run>)
      returns (res: Result, ghost trace: seq<Delivery>)
      requires Valid() && count > 0 && context == ctx
      modifies this, queue
      ensures Valid() && old(accepted) <= accepted && old(popped) <= popped
      ensures res in {Alive, Dead} ==> context == ctx
      ensures res == Alive ==> popped == accepted && !killed && state != Zombie
      ensures res == Dead ==> killed || state == Zombie
      ensures Served(trace, popped, |old(popped)|, old(handlers), runs, tf.gp) && Ended(res, trace, runs)
    {
      hide Served, InForce, Slot;
      var used := 0;
      ghost var lo, hs := |popped|, handlers;
      res, trace := Alive, [];
      ServedNothing(popped, handlers, runs, tf.gp);
      NoneInForce(handlers, runs);
      while count > 0
        invariant Valid() && old(accepted) <= accepted && old(popped) <= popped && context == ctx
        invariant 0 <= used == Started(trace) <= |runs| && handlers == InForce(hs, runs, used)
        invariant Served(trace, popped, lo, hs, runs, tf.gp) && AllZero(trace, |trace|)
        invariant trace != [] ==> !killed && state != Zombie
        invariant count == 0 ==> trace != []
        decreases |runs| - used, count
      {
        var result; ghost var d;
        result, used, d := HandleOne(stack, tf, ctx, oldKstack, runs, used, lo, hs, trace);
        trace := trace + [d];
        if used > |runs| {
          return NoReturn, trace;
        }
        if result != 0 {
          var panicked := ExitFromSignal(result);
          if panicked {
            return Panicked, trace;
          }
        }
        if killed || state == Zombie {
          return Dead, trace;
        }
      }
    }

    /** handle_signals: signals are popped oldest first until none is left or the process is dead. For any
        behaviour of the handlers the saved registers, the context and the kernel stack are as on entry. */
    method HandleSignals(stack: nat, runs: seq<Run>) returns (res: Result, ghost trace: seq<Delivery>)
      requires Valid()
      modifies this, queue
      ensures Valid() && old(accepted) <= accepted && old(popped) <= popped
      ensures res in {Alive, Dead} ==>
                trapframe == old(trapframe) && context == old(context) && kstack == old(kstack) && !inHandler
      ensures res == Alive ==> popped == accepted && (old(count) > 0 ==> !killed && state != Zombie)
      ensures res == Dead ==> old(count) > 0 && (killed || state == Zombie)
      ensures Served(trace, popped, |old(popped)|, old(handlers), runs, old(trapframe).gp) && Ended(res, trace, runs)
    {
      hide Served, InForce;
      inHandler := true;
      res, trace := Alive, [];
      ServedNothing(popped, handlers, runs, trapframe.gp);
      if count > 0 {
        var tf, ctx, oldKstack := trapframe, context, kstack;
        kstack := stack;
        res, trace := Drain(stack, tf, ctx, oldKstack, runs);
        if res in {NoReturn, Panicked} {
          return;
        }
        trapframe := tf;
        kstack := oldKstack;
      }
      inHandler := false;
    }
  }

  lemma NoneInForce(handlers: seq<int>, runs: seq<Run>)
    ensures InForce(handlers, runs, 0) == handlers
  {
  }

  /** send_signal: 2 for an unknown receiver; else the signal goes to the last slot r with that pid, whose
      queue takes it (0) or is full (1). No other process is touched. A full queue leaves the receiver
      locked, unless the signal is to the sender itself. */
  method SendSignal(procs: seq<Process>, pids: seq<int>, s: Signal, receiver: int) returns (code: nat, ghost r: int)
    requires |procs| == |pids|
    requires forall i, j | 0 <= i < j < |procs| :: procs[i] != procs[j] && procs[i].queue != procs[j].queue
    requires forall p | p in procs :: p.Valid() && (s.sender != receiver ==> !p.locked)
    modifies procs, set p | p in procs :: p.queue
    ensures forall p | p in procs :: p.Valid() && p.popped == old(p.popped)
    ensures code <= 2 && (code == 2 <==> receiver !in pids)
    ensures code != 2 ==> 0 <= r < |procs| && pids[r] == receiver && forall i | r < i < |pids| :: pids[i] != receiver
    ensures forall i | 0 <= i < |procs| && (code == 2 || i != r) ::
              procs[i].accepted == old(procs[i].accepted) && procs[i].locked == old(procs[i].locked)
    ensures code != 2 ==> (code == 1 <==> old(procs[r].count) == MAX_SIGNALS - 1)
    ensures code != 2 ==> procs[r].accepted == old(procs[r].accepted) + if code == 0 then [s] else []
    ensures code != 2 ==>
              procs[r].locked == if s.sender == receiver then old(procs[r].locked) else code == 1
  {
    var k := FindReceiver(pids, receiver);
    r := k;
    if k == -1 {
      return 2, r;
    }
    code := procs[k].Accept(s, s.sender == receiver);
  }

  /** Slots of signals in the ring differ from the slot written next. */
  lemma RingSlots(read: nat, count: nat)
    requires read < MAX_SIGNALS && count + 1 < MAX_SIGNALS
    ensures forall k: nat | k < count :: Slot(read, k) != Slot(read, count)
    ensures (Slot(read, count) + 1) % MAX_SIGNALS == Slot(read, count + 1)
  {
  }

  lemma SlotAfter(read: nat, k: nat)
    requires read < MAX_SIGNALS && k < MAX_SIGNALS
    ensures Slot((read + 1) % MAX_SIGNALS, k) == Slot(read, k + 1)
  {
  }
}
