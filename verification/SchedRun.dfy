/** The timer tick, and whole runs of the scheduler. */
module SchedRun {
  import opened Common
  import opened SchedQueues
  import opened Sched
  import opened SchedState
  import opened SchedOps

  /** No thread's dispatch priority has become worse. */
  ghost predicate Down(d: map<nat, nat>, d': map<nat, nat>) {
    forall t :: t in d ==> t in d' && d'[t] <= d[t]
  }

  lemma SwitchedDown(s: Sys, s': Sys)
    requires Switched(s, s')
    ensures Down(s.dispatched, s'.dispatched)
  {
    hide Picked;
    if !(forall p :: 0 <= p < LEVELS ==> s.q.queues[p] == []) {
      var p, s1, t :| Picked(s, s1, p, t) && s' == RunAs(s1, t);
      PickedDown(s, s1, p, t);
    }
  }

  lemma PickedDown(s: Sys, s1: Sys, p: nat, t: nat)
    requires Picked(s, s1, p, t)
    ensures Down(s.dispatched, s1.dispatched)
  {
    hide Taken, Quantum;
  }

  /** What is left of a slice, as the 32-bit signed difference it is computed as. */
  function Remaining(quantum: nat, passed: nat): int {
    var d := (quantum - passed) % U32;
    if d < U32 / 2 then d else d - U32
  }

  /** For a slice that is not overrun the difference is the ticks left. */
  lemma RemainingIs(quantum: nat, passed: nat)
    requires passed <= quantum < U32 / 2
    ensures Remaining(quantum, passed) == quantum - passed
  {
  }

  /** The idle task has a slice of zero and its ticks are never reset, so it gives way at a tick
      exactly until it has been charged for 2^31 of them; from then on it does not, for as many
      again less one. */
  lemma IdleGivesWay(passed: nat)
    requires passed < U32
    ensures Remaining(0, passed) <= 0 <==> passed <= U32 / 2
  {
    if passed > 0 { assert (0 - passed) % U32 == U32 - passed; }
  }

  /** The running thread with one more tick of its slice used, a 32-bit count. */
  ghost function Used(s: Sys): Sys {
    if s.current in s.q.th
    then s.(q := s.q.(th := s.q.th[s.current := s.q.th[s.current].(passed := (s.q.th[s.current].passed + 1) % U32)]))
    else s
  }

  /** The running thread went to the back of its queue, unless it is an idle task, and another one
      runs. */
  ghost predicate Requeued(s: Sys, s': Sys, now: nat) {
    && s.current in s.q.th
    && if s.q.th[s.current].tid == 0 then Switched(s, s')
       else exists q :: Enqueued(s.q, q, s.current, now) && Switched(s.(q := q), s')
  }

  /** The end of a tick: a thread that is not running is left alone, one with ticks left runs on,
      and one whose slice is used up goes to the back of its queue and another one runs. */
  ghost predicate Ticked(s: Sys, s': Sys, now: nat) {
    && s.current in s.q.th
    && var x := s.q.th[s.current];
       if x.state != Running then s' == s
       else if Remaining(x.quantum, (x.passed + 1) % U32) > 0 then s' == Used(s)
       else Requeued(Used(s), s', now)
  }

  /** The accounting part of sched_on_timer_tick. */
  method Charge(sc: Scheduler, now: nat)
    requires Inv(S(sc)) && CurrentOk(S(sc))
    modifies sc`th, sc`heads, sc`tails, sc`queues, sc`seat, sc`dispatched, sc`current
    ensures Inv(S(sc)) && CurrentOk(S(sc)) && Ticked(old(S(sc)), S(sc), now) && Down(old(sc.dispatched), sc.dispatched)
  {
    hide Linked, ReadyOk, History, SleepOk, ApartOk, Idle, Switched, Enqueued, Quantum, Requeued, Remaining;
    var t := sc.current;
    if sc.th[t].state != Running { return; }
    ghost var s0 := S(sc);
    RunningBound(s0);
    var used := (sc.th[t].passed + 1) % U32;
    FreeFields(s0, t, sc.th[t].(passed := used));
    sc.th := sc.th[t := sc.th[t].(passed := used)];
    assert S(sc) == Used(s0);
    if Remaining(sc.th[t].quantum, used) <= 0 {
      Requeue(sc, now);
    } else {
      UsedCurrent(s0);
    }
  }

  /** The running thread is queued again and another one runs: sys_yield, and the end of a slice. */
  method Requeue(sc: Scheduler, now: nat)
    requires Inv(S(sc)) && sc.current in sc.th && sc.current !in sc.seat && sc.current !in sc.sleepers
    modifies sc`th, sc`heads, sc`tails, sc`queues, sc`seat, sc`dispatched, sc`current
    ensures Inv(S(sc)) && CurrentOk(S(sc)) && Requeued(old(S(sc)), S(sc), now)
    ensures Down(old(sc.dispatched), sc.dispatched)
  {
    hide Linked, ReadyOk, History, SleepOk, ApartOk, Idle, Switched, Enqueued, Quantum;
    Enqueue(sc, sc.current, now);
    ghost var s1 := S(sc);
    SwitchNext(sc);
    SwitchedDown(s1, S(sc));
  }

  lemma RunningBound(s: Sys)
    requires Inv(s) && CurrentOk(s) && s.q.th[s.current].state == Running
    ensures s.current in s.dispatched ==> (s.q.th[s.current].passed + 1) % U32 <= Quantum(s.dispatched[s.current])
  {
    hide Linked, ReadyOk, SleepOk, ApartOk, Idle;
  }

  /** A thread that runs on has part of its slice left. */
  lemma UsedCurrent(s: Sys)
    requires CurrentOk(s) && s.q.th[s.current].state == Running
    requires Remaining(s.q.th[s.current].quantum, (s.q.th[s.current].passed + 1) % U32) > 0
    ensures CurrentOk(Used(s))
  {
    var x := s.q.th[s.current];
    if x.tid != 0 { RemainingIs(x.quantum, x.passed + 1); }
  }

  /** The aging part of a tick: every hundredth one. */
  ghost predicate AgedStep(s: Sys, s': Sys, now: nat, threshold: nat) {
    if now % U32 % 100 == 0
    then
      && Risen(s.q, s'.q, LEVELS - 1, now, threshold)
      && AgedUpTo(s.q, s'.q, LEVELS, now, threshold)
      && s' == s.(q := s'.q)
    else s' == s
  }

  /** A whole tick: exactly the sleepers that are due are woken, every hundredth tick ages the
      queues, and the running thread is charged. */
  ghost predicate TickStep(s: Sys, s1: Sys, s2: Sys, s': Sys, k: nat, now: nat, threshold: nat) {
    Woken(s, s1, k, now) && WakesOnly(s, k, now) && AgedStep(s1, s2, now, threshold) && Ticked(s2, s', now)
  }

  /** sched_on_timer_tick. */
  method OnTimerTick(sc: Scheduler, now: nat) returns (ghost s1: Sys, ghost s2: Sys, ghost k: nat)
    requires Inv(S(sc)) && CurrentOk(S(sc))
    modifies sc`th, sc`heads, sc`tails, sc`queues, sc`seat, sc`dispatched, sc`current, sc`sleepHead, sc`sleepers
    ensures Inv(S(sc)) && CurrentOk(S(sc)) && Down(old(sc.dispatched), sc.dispatched)
    ensures TickStep(old(S(sc)), s1, s2, S(sc), k, now, sc.threshold)
  {
    hide Linked, ReadyOk, History, SleepOk, ApartOk, Idle, Woken, WakesOnly, Ticked, Risen, AgedUpTo, CurrentOk;
    k := WakeUp(sc, now);
    s1 := S(sc);
    if now % U32 % 100 == 0 {
      sc.ApplyAging(now);
      RisenInv(s1, sc.Q(), now, sc.threshold);
    }
    s2 := S(sc);
    assert s1.dispatched == old(sc.dispatched) by { WokenDispatched(old(S(sc)), s1, k, now); }
    Charge(sc, now);
  }

  lemma WokenDispatched(s: Sys, s': Sys, k: nat, now: nat)
    requires Woken(s, s', k, now)
    ensures s'.dispatched == s.dispatched && s'.current == s.current
  {
  }

  /** sys_exit and sys_waitpid: the running thread stops and another one runs. */
  method Stop(sc: Scheduler)
    requires Inv(S(sc)) && CurrentOk(S(sc))
    modifies sc`th, sc`heads, sc`tails, sc`queues, sc`seat, sc`dispatched, sc`current
    ensures Inv(S(sc)) && CurrentOk(S(sc)) && Down(old(sc.dispatched), sc.dispatched)
    ensures exists s1 :: Stopped(old(S(sc)), s1) && Switched(s1, S(sc))
  {
    hide Linked, ReadyOk, History, SleepOk, ApartOk, Idle, Killed, Switched, Quantum;
    ghost var s0 := S(sc);
    Dequeue(sc, sc.current);
    ghost var s1 := S(sc);
    assert Stopped(s0, s1);
    assert s1.dispatched == s0.dispatched by { KilledDispatched(s0, s1); }
    SwitchNext(sc);
    SwitchedDown(s1, S(sc));
  }

  ghost predicate Stopped(s: Sys, s': Sys) {
    && s.current in s.q.th
    && if s.q.th[s.current].tid == 0 || !(0 <= s.q.th[s.current].priority < LEVELS) then s' == s
      else Killed(s, s', s.current)
  }

  lemma KilledDispatched(s: Sys, s': Sys)
    requires Stopped(s, s') && s.current !in s.q.seat
    ensures s'.dispatched == s.dispatched
  {
  }

  /** A new thread, as fork and exec queue it. */
  method Spawn(sc: Scheduler, t: nat, x: Thread, now: nat)
    requires Inv(S(sc)) && CurrentOk(S(sc)) && t !in sc.th && x.tid != 0
    modifies sc`th, sc`heads, sc`tails, sc`queues, sc`seat
    ensures Inv(S(sc)) && CurrentOk(S(sc)) && t in sc.seat && sc.seat[t] == Level(x.priority)
    ensures Enqueued(old(sc.Q()).(th := old(sc.th)[t := x]), sc.Q(), t, now)
  {
    hide Linked, SleepOk, Enqueued, Quantum;
    ghost var s0 := S(sc);
    AddedInv(s0, t, x);
    sc.th := sc.th[t := x];
    ghost var s1 := S(sc);
    Enqueue(sc, t, now);
    SpawnedCurrent(s0, s1, S(sc), t, now);
  }

  lemma AddedInv(s: Sys, t: nat, x: Thread)
    requires Inv(s) && t !in s.q.th
    ensures Inv(s.(q := s.q.(th := s.q.th[t := x]))) && t !in s.q.seat && t !in s.sleepers
  {
    var q' := s.q.(th := s.q.th[t := x]);
    assert t !in s.q.seat by {
      hide Linked, SleepOk, History;
      assert t in s.q.seat ==> ReadyAt(s.q, t);
    }
    assert t !in s.sleepers by { hide Linked, ReadyOk, History; }
    assert Linked(q') by {
      hide Linked, ReadyOk, History, SleepOk, ApartOk, Idle;
      FieldsFree(s.q, q'.th);
    }
    assert ReadyOk(q') by {
      hide Linked, History, SleepOk;
      forall y | y in q'.seat ensures ReadyAt(q', y) { assert ReadyAt(s.q, y); }
    }
    hide Linked, ReadyOk, SleepOk, Quantum;
    SleepSame(s.q.th, q'.th, s.sleepHead, s.sleepers);
  }

  lemma SpawnedCurrent(s0: Sys, s1: Sys, s2: Sys, t: nat, now: nat)
    requires CurrentOk(s0) && t !in s0.q.th && t in s1.q.th && s1 == s0.(q := s0.q.(th := s0.q.th[t := s1.q.th[t]]))
    requires Enqueued(s1.q, s2.q, t, now) && s2 == s1.(q := s2.q)
    ensures CurrentOk(s2) && t in s2.q.seat && s2.q.seat[t] == Level(s1.q.th[t].priority)
  {
    hide Quantum;
    var y := s2.q.th[s2.current];
    assert Bare(y) == Bare(s0.q.th[s0.current]);
    assert Bare(y).state == y.state && Bare(y).tid == y.tid && Bare(y).quantum == y.quantum
      && Bare(y).passed == y.passed;
  }

  /** A thread that is ready, asleep, or `t`. */
  ghost predicate Placed(s: Sys, x: nat, t: int) {
    x in s.q.seat || x in s.sleepers || x == t
  }

  /** Exactly the live threads are ready, asleep, or `t`; idle tasks do not count. */
  ghost predicate PlacedBut(s: Sys, t: int) {
    && s.idle in s.q.th && s.q.th[s.idle].tid == 0
    && (forall x :: x in s.q.th && s.q.th[x].tid != 0 ==> (s.q.th[x].state != Dead <==> Placed(s, x, t)))
  }

  /** No thread is lost and no dead one lingers: exactly the live ones are ready, asleep or running. */
  ghost predicate Accounted(s: Sys) {
    PlacedBut(s, s.current)
  }

  lemma SwitchedAccounted(s: Sys, s': Sys)
    requires PlacedBut(s, NONE) && Switched(s, s')
    ensures Accounted(s')
  {
    hide Picked, PlacedBut;
    if forall p :: 0 <= p < LEVELS ==> s.q.queues[p] == [] {
      IdleAccounted(s);
    } else {
      var p, s1, t :| Picked(s, s1, p, t) && s' == RunAs(s1, t);
      PickedAccounted(s, s1, p, t);
    }
  }

  lemma IdleAccounted(s: Sys)
    requires PlacedBut(s, NONE)
    ensures PlacedBut(RunAs(s, s.idle), RunAs(s, s.idle).current)
  {
  }

  lemma PreparedTid(x: Thread)
    ensures Prepared(x).tid == x.tid
  {
  }

  lemma PickedAccounted(s: Sys, s1: Sys, p: nat, t: nat)
    requires PlacedBut(s, NONE) && Picked(s, s1, p, t)
    ensures PlacedBut(RunAs(s1, t), RunAs(s1, t).current)
  {
    PreparedTid(Bare(s.q.th[t]));
    hide Prepared, Quantum;
    var s' := RunAs(s1, t);
    assert Bare(s1.q.th[s.idle]).tid == s1.q.th[s.idle].tid;
    forall x | x in s'.q.th && s'.q.th[x].tid != 0 ensures s'.q.th[x].state != Dead <==> Placed(s', x, s'.current) {
      if x != t {
        assert Bare(s1.q.th[x]) == Bare(s.q.th[x]);
        assert Bare(s1.q.th[x]).tid == s1.q.th[x].tid && Bare(s1.q.th[x]).state == s1.q.th[x].state;
      }
    }
  }

  lemma WokenAccounted(s: Sys, s': Sys, k: nat, now: nat)
    requires Accounted(s) && Woken(s, s', k, now)
    ensures Accounted(s')
  {
    hide Quantum;
    forall x | x in s'.q.th && s'.q.th[x].tid != 0 ensures s'.q.th[x].state != Dead <==> Placed(s', x, s'.current) {
      var y := s'.q.th[x];
      assert Bare(y).tid == y.tid && Bare(y).state == y.state;
      assert x in s.sleepers ==> x in s.sleepers[..k] || x in s.sleepers[k..];
    }
  }

  lemma RisenAccounted(s: Sys, s': Sys, now: nat, threshold: nat)
    requires Accounted(s) && Risen(s.q, s'.q, LEVELS - 1, now, threshold) && s' == s.(q := s'.q)
    ensures Accounted(s')
  {
    hide Due;
    forall x | x in s'.q.th && s'.q.th[x].tid != 0 ensures s'.q.th[x].state != Dead <==> Placed(s', x, s'.current) {
      assert RisenAt(s.q, s'.q, Rises(s.q, LEVELS - 1, now, threshold, x), now, x);
      var y := s'.q.th[x];
      assert Bare(y).tid == y.tid && Bare(y).state == y.state;
    }
  }

  lemma EnqueuedPlaced(s: Sys, q': Queues, now: nat)
    requires Accounted(s) && Enqueued(s.q, q', s.current, now)
    ensures PlacedBut(s.(q := q'), NONE)
  {
    hide Quantum;
    forall x | x in q'.th && q'.th[x].tid != 0 ensures q'.th[x].state != Dead <==> Placed(s.(q := q'), x, NONE) {
      if x != s.current {
        assert Bare(q'.th[x]) == Bare(s.q.th[x]);
        assert Bare(q'.th[x]).tid == q'.th[x].tid && Bare(q'.th[x]).state == q'.th[x].state;
      }
    }
  }

  lemma TickedAccounted(s: Sys, s': Sys, now: nat)
    requires Accounted(s) && Ticked(s, s', now)
    ensures Accounted(s')
  {
    hide Requeued, Remaining;
    var x := s.q.th[s.current];
    if x.state == Running && Remaining(x.quantum, (x.passed + 1) % U32) <= 0 { RequeuedAccounted(Used(s), s', now); }
  }

  lemma RequeuedAccounted(s: Sys, s': Sys, now: nat)
    requires Accounted(s) && Requeued(s, s', now)
    ensures Accounted(s')
  {
    hide Switched, Enqueued;
    if s.q.th[s.current].tid == 0 {
      SwitchedAccounted(s, s');
    } else {
      var q :| Enqueued(s.q, q, s.current, now) && Switched(s.(q := q), s');
      EnqueuedPlaced(s, q, now);
      SwitchedAccounted(s.(q := q), s');
    }
  }

  lemma LullsPlaced(s: Sys, s': Sys, k: nat, wake: nat, block: bool)
    requires Accounted(s) && Lulls(s, s', k, wake, block)
    ensures PlacedBut(s', NONE)
  {
    InsertedSize(s.sleepers, k, s.current);
    var th := if block then s.q.th[s.current := s.q.th[s.current].(state := Blocked)] else s.q.th;
    LulledFields(th, s.sleepers, k, s.current, wake);
    hide Lulled, Inserted, PlaceFor;
  }

  lemma StoppedPlaced(s: Sys, s': Sys)
    requires Accounted(s) && CurrentOk(s) && Stopped(s, s')
    requires (0 <= s.q.th[s.current].priority < LEVELS || s.q.th[s.current].tid == 0)
    ensures PlacedBut(s', NONE)
  {
    forall x | x in s'.q.th && s'.q.th[x].tid != 0 ensures s'.q.th[x].state != Dead <==> Placed(s', x, NONE) {
      if s.q.th[s.current].tid != 0 {
        var y := s'.q.th[x];
        assert Bare(y).tid == y.tid && Bare(y).state == y.state;
      }
    }
  }

  lemma SpawnedAccounted(s: Sys, s': Sys, t: nat, x: Thread, now: nat)
    requires Accounted(s) && Enqueued(s.q.(th := s.q.th[t := x]), s'.q, t, now) && s' == s.(q := s'.q) && t !in s.q.th
    ensures Accounted(s')
  {
    hide Quantum;
    forall y | y in s'.q.th && s'.q.th[y].tid != 0 ensures s'.q.th[y].state != Dead <==> Placed(s', y, s'.current) {
      var z := s'.q.th[y];
      assert Bare(z).tid == z.tid && Bare(z).state == z.state;
    }
  }

  /** sched_enqueue of a thread that had stopped: sys_exit does it to a parent in sys_waitpid. */
  method Rejoin(sc: Scheduler, t: nat, now: nat)
    requires Good(S(sc)) && Resumable(sc.th, t)
    modifies sc`th, sc`heads, sc`tails, sc`queues, sc`seat
    ensures Inv(S(sc)) && CurrentOk(S(sc)) && Enqueued(old(sc.Q()), sc.Q(), t, now)
  {
    hide Linked, ReadyOk, History, SleepOk, ApartOk, Idle, Enqueued, Quantum, Accounted;
    ghost var s0 := S(sc);
    ResumableNowhere(s0, t);
    Enqueue(sc, t, now);
    RejoinedCurrent(s0, S(sc), t, now);
  }

  /** A thread that has stopped. */
  predicate Resumable(th: Threads, t: nat) {
    t in th && th[t].tid != 0 && th[t].state == Dead
  }

  /** It is nowhere. */
  lemma ResumableNowhere(s: Sys, t: nat)
    requires CurrentOk(s) && Accounted(s) && Resumable(s.q.th, t)
    ensures t !in s.q.seat && t !in s.sleepers && t != s.current
  {
    assert !Placed(s, t, s.current);
  }

  lemma RejoinedCurrent(s: Sys, s': Sys, t: nat, now: nat)
    requires CurrentOk(s) && t != s.current && Enqueued(s.q, s'.q, t, now) && s' == s.(q := s'.q)
    ensures CurrentOk(s')
  {
    hide Quantum;
    var y := s'.q.th[s'.current];
    assert Bare(y) == Bare(s.q.th[s.current]);
    assert Bare(y).state == y.state && Bare(y).tid == y.tid && Bare(y).quantum == y.quantum
      && Bare(y).passed == y.passed;
  }

  lemma RejoinedAccounted(s: Sys, s': Sys, t: nat, now: nat)
    requires Accounted(s) && Enqueued(s.q, s'.q, t, now) && s' == s.(q := s'.q)
    ensures Accounted(s')
  {
    hide Quantum;
    forall y | y in s'.q.th && s'.q.th[y].tid != 0 ensures s'.q.th[y].state != Dead <==> Placed(s', y, s'.current) {
      var z := s'.q.th[y];
      assert Bare(z).tid == z.tid && Bare(z).state == z.state;
    }
  }

  /** The ticks sys_sleep waits for: 32-bit milliseconds, divided twice because the macro for the
      length of a tick has no parentheses. */
  function SleepTicks(seconds: nat): nat {
    seconds * 1000 % U32 / 1000 / TIMER_HZ
  }

  /** Only a sleep of zero seconds lasts as long as asked for. The others wait one tick for every 1000
      seconds, exactly while the milliseconds fit 32 bits. */
  lemma SleepAsMeant(seconds: nat)
    ensures SleepTicks(seconds) == seconds * TIMER_HZ <==> seconds == 0
    ensures SleepTicks(seconds) == seconds / 1000 <==> seconds * 1000 < U32
  {
    if U32 <= seconds * 1000 < 2 * U32 { assert seconds * 1000 % U32 == seconds * 1000 - U32; }
  }

  const U64 := 0x1_0000_0000_0000_0000

  /** The ticks sys_nanosleep waits for, in 64-bit arithmetic. */
  function NapTicks(ns: nat): nat {
    ns % U64 * TIMER_HZ % U64 / 1_000_000_000
  }

  /** They are the whole ticks of the time asked for exactly if the product does not overflow. */
  lemma NapAsMeant(ns: nat)
    ensures NapTicks(ns) == ns / 1_000_000 <==> ns * TIMER_HZ < U64
  {
  }

  /** What can happen: a timer tick, sys_sleep, sys_nanosleep, sys_yield, the running thread stopping
      (sys_exit, sys_waitpid), a new thread (sys_fork, sys_exec), and a stopped thread going on. */
  datatype Event = Tick | Doze(seconds: nat) | Nap(ns: nat) | Yield | Halt | Start(t: nat, x: Thread) | Resume(t: nat)

  /** The tick at which a sleep ends. */
  function Until(now: nat, ticks: nat): nat {
    (now + ticks) % U32
  }

  /** The running thread, if it is not an idle task, sleeps until `wake` and another one runs. */
  ghost predicate Dozed(s: Sys, s': Sys, wake: nat, block: bool) {
    && s.current in s.q.th
    && if s.q.th[s.current].tid == 0 then s' == s
       else exists s1, k :: Lulls(s, s1, k, wake, block) && Switched(s1, s')
  }

  /** What an event does when the timer shows `now`. Requests that make no sense are ignored: an idle
      task does not sleep, a thread is not started twice, and only a stopped one is resumed. */
  ghost predicate Step(s: Sys, e: Event, s': Sys, now: nat, threshold: nat) {
    match e
    case Tick => exists s1, s2, k :: TickStep(s, s1, s2, s', k, now, threshold)
    case Doze(seconds) => Dozed(s, s', Until(now, SleepTicks(seconds)), false)
    case Nap(ns) => Dozed(s, s', Until(now, NapTicks(ns)), true)
    case Yield => Requeued(s, s', now)
    case Halt => exists s1 :: Stopped(s, s1) && Switched(s1, s')
    case Start(t, x) =>
      if t in s.q.th || x.tid == 0 then s' == s
      else Enqueued(s.q.(th := s.q.th[t := x]), s'.q, t, now) && s' == s.(q := s'.q)
    case Resume(t) =>
      if Resumable(s.q.th, t) then Enqueued(s.q, s'.q, t, now) && s' == s.(q := s'.q) else s' == s
  }

  /** What holds of the scheduler between events. */
  ghost predicate Good(s: Sys) {
    Inv(s) && CurrentOk(s) && Accounted(s)
  }

  method DoTick(sc: Scheduler, now: nat)
    requires Good(S(sc))
    modifies sc`th, sc`heads, sc`tails, sc`queues, sc`seat, sc`dispatched, sc`current, sc`sleepHead, sc`sleepers
    ensures Good(S(sc)) && Down(old(sc.dispatched), sc.dispatched) && Step(old(S(sc)), Tick, S(sc), now, sc.threshold)
  {
    hide Inv, CurrentOk, Woken, WakesOnly, Ticked, Risen, AgedUpTo, Accounted;
    ghost var s0 := S(sc);
    var s1, s2, k := OnTimerTick(sc, now);
    WokenAccounted(s0, s1, k, now);
    if now % U32 % 100 == 0 { RisenAccounted(s1, s2, now, sc.threshold); }
    TickedAccounted(s2, S(sc), now);
  }

  method DoDoze(sc: Scheduler, wake: nat, block: bool)
    requires Good(S(sc)) && wake < U32
    modifies sc`th, sc`heads, sc`tails, sc`queues, sc`seat, sc`dispatched, sc`current, sc`sleepHead, sc`sleepers
    ensures Good(S(sc)) && Down(old(sc.dispatched), sc.dispatched) && Dozed(old(S(sc)), S(sc), wake, block)
  {
    hide Linked, ReadyOk, History, SleepOk, ApartOk, Idle, Switched, Lulls, Accounted, PlacedBut, Quantum, Inserted,
      PlaceFor;
    if sc.th[sc.current].tid != 0 {
      ghost var s0 := S(sc);
      ghost var k := Sleep(sc, wake, block);
      ghost var s1 :| Lulls(s0, s1, k, wake, block) && Switched(s1, S(sc));
      LullsPlaced(s0, s1, k, wake, block);
      SwitchedAccounted(s1, S(sc));
      LullsDispatched(s0, s1, k, wake, block);
      SwitchedDown(s1, S(sc));
    }
  }

  method DoHalt(sc: Scheduler, now: nat)
    requires Good(S(sc))
    modifies sc`th, sc`heads, sc`tails, sc`queues, sc`seat, sc`dispatched, sc`current
    ensures Good(S(sc)) && Down(old(sc.dispatched), sc.dispatched) && Step(old(S(sc)), Halt, S(sc), now, sc.threshold)
  {
    hide Inv, CurrentOk, Switched, Accounted, Stopped;
    ghost var s0 := S(sc);
    Stop(sc);
    ghost var s1 :| Stopped(s0, s1) && Switched(s1, S(sc));
    RunningPriority(s0);
    StoppedPlaced(s0, s1);
    SwitchedAccounted(s1, S(sc));
  }

  /** One event. */
  method DoEvent(sc: Scheduler, e: Event, now: nat)
    requires Good(S(sc))
    modifies sc`th, sc`heads, sc`tails, sc`queues, sc`seat, sc`dispatched, sc`current, sc`sleepHead, sc`sleepers
    ensures Good(S(sc)) && Down(old(sc.dispatched), sc.dispatched) && Step(old(S(sc)), e, S(sc), now, sc.threshold)
  {
    hide Inv, Quantum, Enqueued, Accounted, TickStep, Stopped, Switched, Requeued, Dozed;
    ghost var s0 := S(sc);
    DownRefl(sc.dispatched);
    match e {
      case Tick => DoTick(sc, now);
      case Doze(seconds) => DoDoze(sc, Until(now, SleepTicks(seconds)), false);
      case Nap(ns) => DoDoze(sc, Until(now, NapTicks(ns)), true);
      case Yield =>
        Requeue(sc, now);
        RequeuedAccounted(s0, S(sc), now);
      case Halt => DoHalt(sc, now);
      case Start(t, x) =>
        if t !in sc.th && x.tid != 0 {
          Spawn(sc, t, x, now);
          SpawnedAccounted(s0, S(sc), t, x, now);
        }
      case Resume(t) =>
        if Resumable(sc.th, t) {
          Rejoin(sc, t, now);
          RejoinedAccounted(s0, S(sc), t, now);
        }
    }
  }

  lemma LullsDispatched(s: Sys, s': Sys, k: nat, wake: nat, block: bool)
    requires Lulls(s, s', k, wake, block)
    ensures s'.dispatched == s.dispatched
  {
  }

  lemma RunningPriority(s: Sys)
    requires Inv(s) && CurrentOk(s)
    ensures s.q.th[s.current].tid != 0 ==> 0 <= s.q.th[s.current].priority < LEVELS
  {
    hide Linked, ReadyOk, SleepOk, ApartOk, Idle, Quantum;
  }

  lemma DownTrans(a: map<nat, nat>, b: map<nat, nat>, c: map<nat, nat>)
    requires Down(a, b) && Down(b, c)
    ensures Down(a, c)
  {
  }

  /** The timer after the first `n` events. */
  function Clock(start: nat, es: seq<Event>, n: nat): nat
    requires n <= |es|
  {
    if n == 0 then start else Clock(start, es, n - 1) + if es[n - 1].Tick? then 1 else 0
  }

  /** `trace` is what the events `es` do, one after the other. */
  ghost predicate IsRun(trace: seq<Sys>, es: seq<Event>, start: nat, threshold: nat) {
    && |trace| == |es| + 1
    && (forall i :: 0 <= i < |es| ==> Step(trace[i], es[i], trace[i + 1], Clock(start, es, i + 1), threshold))
  }

  /** Over every run: each event does what it should, the structures hold after every event, no
      thread is lost, and no thread's dispatch priority is ever worse than at an earlier dispatch. */
  method Run(sc: Scheduler, es: seq<Event>, start: nat) returns (ghost trace: seq<Sys>)
    requires Good(S(sc))
    modifies sc`th, sc`heads, sc`tails, sc`queues, sc`seat, sc`dispatched, sc`current, sc`sleepHead, sc`sleepers
    ensures IsRun(trace, es, start, sc.threshold) && trace[0] == old(S(sc)) && trace[|es|] == S(sc)
    ensures forall i :: 0 <= i < |trace| ==> Good(trace[i])
    ensures forall i, j :: 0 <= i <= j < |trace| ==> Down(trace[i].dispatched, trace[j].dispatched)
  {
    hide Good, Down, Step;
    trace := [S(sc)];
    DownRefl(sc.dispatched);
    var k, now := 0, start;
    while k < |es|
      invariant 0 <= k <= |es| && Good(S(sc)) && now == Clock(start, es, k)
      invariant |trace| == k + 1 && trace[0] == old(S(sc)) && trace[k] == S(sc)
      invariant forall i :: 0 <= i < k ==> Step(trace[i], es[i], trace[i + 1], Clock(start, es, i + 1), sc.threshold)
      invariant forall i :: 0 <= i < |trace| ==> Good(trace[i])
      invariant forall i, j :: 0 <= i <= j < |trace| ==> Down(trace[i].dispatched, trace[j].dispatched)
    {
      ghost var last := S(sc);
      if es[k].Tick? { now := now + 1; }
      DoEvent(sc, es[k], now);
      DownRefl(sc.dispatched);
      forall i | 0 <= i < |trace| ensures Down(trace[i].dispatched, sc.dispatched) {
        assert Down(trace[i].dispatched, trace[k].dispatched);
        DownTrans(trace[i].dispatched, last.dispatched, sc.dispatched);
      }
      trace := trace + [S(sc)];
      k := k + 1;
    }
  }

  lemma DownRefl(d: map<nat, nat>)
    ensures Down(d, d)
  {
  }

  /** The scheduler starts in a state from which all of this holds. */
  method Init(threshold: nat, idle: nat, task: Thread) returns (sc: Scheduler)
    requires task.tid == 0
    ensures fresh(sc) && Good(S(sc)) && sc.threshold == threshold && sc.dispatched == map[]
  {
    sc := new Scheduler(threshold, idle, task);
    hide Linked;
  }
}
