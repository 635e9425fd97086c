/** How the ticks a thread uses between two dispatches decide the priority of the second. */
module SchedBurst {
  import opened Common
  import opened SchedQueues
  import opened Sched
  import opened SchedState
  import opened SchedOps
  import opened SchedRun

  /** The level after a burst of `used` ticks at level `d`: one higher if the mean of the burst and the
      slice, rounded down, fits the next shorter slice. */
  function NextLevel(d: nat, used: nat): nat {
    if d > 0 && used + Quantum(d) <= 2 * Quantum(d - 1) + 1 then d - 1 else d
  }

  lemma MeanLevel(d: nat, used: nat)
    requires d < LEVELS && used <= Quantum(d)
    ensures LevelFor((used + Quantum(d)) / 2) == NextLevel(d, used)
  {
  }

  /** Thread `t` was last dispatched at level `d` and has used `used` ticks since. */
  ghost predicate Recalls(s: Sys, t: nat, d: nat, used: nat) {
    && t in s.q.th && t in s.dispatched && s.dispatched[t] == d < LEVELS && s.q.th[t].tid != 0
    && s.q.th[t].passed == used
    && if t in s.q.seat then s.q.th[t].estimate == Quantum(d) else s.q.th[t].priority == d
  }

  lemma HistoryRecalls(s: Sys, t: nat)
    requires Inv(s) && t in s.dispatched
    ensures t in s.q.th && Recalls(s, t, s.dispatched[t], s.q.th[t].passed)
    ensures s.q.th[t].passed <= Quantum(s.dispatched[t])
  {
    hide Linked, ReadyOk, SleepOk, ApartOk, Idle, Quantum;
  }

  lemma BareFields(x: Thread, y: Thread)
    requires Bare(x) == Bare(y)
    ensures x.tid == y.tid && x.passed == y.passed && x.estimate == y.estimate && x.priority == y.priority
    ensures x.state == y.state && x.quantum == y.quantum
  {
    assert Bare(x).tid == x.tid && Bare(x).passed == x.passed && Bare(x).estimate == x.estimate
      && Bare(x).priority == x.priority && Bare(x).state == x.state && Bare(x).quantum == x.quantum;
  }

  lemma EnqueuedRecalls(s: Sys, s': Sys, x: nat, now: nat, t: nat, d: nat, used: nat)
    requires Recalls(s, t, d, used) && Enqueued(s.q, s'.q, x, now) && s' == s.(q := s'.q) && x !in s.q.seat
    ensures Recalls(s', t, d, used)
  {
    hide Quantum;
    if x == t { BareFields(s'.q.th[t], Queued(s.q.th[t], now)); } else { BareFields(s'.q.th[t], s.q.th[t]); }
  }

  lemma WokenRecalls(s: Sys, s': Sys, k: nat, now: nat, t: nat, d: nat, used: nat)
    requires Recalls(s, t, d, used) && Woken(s, s', k, now) && ApartOk(s.q, s.sleepers)
    ensures Recalls(s', t, d, used)
  {
    hide Quantum, Bound;
    if t in s.sleepers[..k] { assert t in s.sleepers; }
    var y := s'.q.th[t];
    assert Bare(y).tid == y.tid && Bare(y).passed == y.passed && Bare(y).estimate == y.estimate
      && Bare(y).priority == y.priority;
  }

  lemma AgedRecalls(s: Sys, s': Sys, now: nat, threshold: nat, t: nat, d: nat, used: nat)
    requires Recalls(s, t, d, used) && AgedStep(s, s', now, threshold)
    ensures Recalls(s', t, d, used)
  {
    hide Quantum, AgedUpTo, Due;
    if now % U32 % 100 == 0 {
      assert RisenAt(s.q, s'.q, Rises(s.q, LEVELS - 1, now, threshold, t), now, t);
      var y := s'.q.th[t];
      assert Bare(y).tid == y.tid && Bare(y).passed == y.passed && Bare(y).estimate == y.estimate
        && Bare(y).priority == y.priority;
    }
  }

  /** Another thread is dispatched, or none. */
  lemma SwitchedRecalls(s: Sys, s': Sys, t: nat, d: nat, used: nat)
    requires Recalls(s, t, d, used) && Switched(s, s') && s'.current != t
    ensures Recalls(s', t, d, used)
  {
    hide Quantum, Prepared;
    if !(forall p :: 0 <= p < LEVELS ==> s.q.queues[p] == []) {
      var p, s1, x :| Picked(s, s1, p, x) && s' == RunAs(s1, x);
      BareFields(s1.q.th[t], s.q.th[t]);
    }
  }

  /** The thread is dispatched. */
  lemma SwitchedLevel(s: Sys, s': Sys, t: nat, d: nat, used: nat)
    requires Recalls(s, t, d, used) && Switched(s, s') && s'.current == t && used <= Quantum(d)
    requires s.idle in s.q.th && s.q.th[s.idle].tid == 0
    ensures t in s'.dispatched && s'.dispatched[t] == NextLevel(d, used) && t in s'.q.th && t !in s'.q.seat
    ensures s'.q.th[t].passed == 0 && s'.q.th[t].tid != 0
  {
    MeanLevel(d, used);
    hide Quantum, LevelFor, NextLevel;
    var p, s1, x :| Picked(s, s1, p, x) && s' == RunAs(s1, x);
    var y := s1.q.th[t];
    assert Bare(y).priority == y.priority && Bare(y).passed == y.passed && Bare(y).tid == y.tid;
  }

  /** The event leaves the running thread running. */
  ghost predicate RunsOn(s: Sys, e: Event) {
    || e.Start? || e.Resume?
    || (e.Tick? && s.current in s.q.th && s.q.th[s.current].passed + 1 < s.q.th[s.current].quantum)
  }

  /** The event ends with the dispatch of `t`, perhaps of the thread that ran before. */
  ghost predicate Dispatches(s: Sys, e: Event, s': Sys, t: nat) {
    t == s'.current && t in s.q.th && s.q.th[t].tid != 0 && (t != s.current || !RunsOn(s, e))
  }

  /** What the event adds to the ticks `t` has used. */
  function Ticks(s: Sys, e: Event, t: nat): nat {
    if e.Tick? && t == s.current then 1 else 0
  }

  /** After an event: `t` was dispatched at the level its burst calls for, or nothing is forgotten. */
  ghost predicate Follows(s': Sys, t: nat, d: nat, used: nat, dispatched: bool) {
    if dispatched then
      && t in s'.dispatched && s'.dispatched[t] == NextLevel(d, used) && t in s'.q.th && t !in s'.q.seat
      && s'.q.th[t].passed == 0 && s'.q.th[t].tid != 0
    else Recalls(s', t, d, used)
  }

  ghost predicate IdleIs(s: Sys) {
    s.idle in s.q.th && s.q.th[s.idle].tid == 0
  }

  lemma SwitchedFollows(s: Sys, s': Sys, t: nat, d: nat, used: nat)
    requires Recalls(s, t, d, used) && Switched(s, s') && used <= Quantum(d) && IdleIs(s)
    ensures Follows(s', t, d, used, s'.current == t)
  {
    hide Recalls, Switched, Quantum, NextLevel;
    if s'.current == t { SwitchedLevel(s, s', t, d, used); } else { SwitchedRecalls(s, s', t, d, used); }
  }

  lemma EnqueuedIdle(s: Sys, s': Sys, x: nat, now: nat)
    requires IdleIs(s) && Enqueued(s.q, s'.q, x, now) && s' == s.(q := s'.q)
    ensures IdleIs(s')
  {
    hide Quantum;
    var y := s'.q.th[s.idle];
    assert Bare(y).tid == y.tid;
  }

  lemma RequeuedFollows(s: Sys, s': Sys, now: nat, t: nat, d: nat, used: nat)
    requires Recalls(s, t, d, used) && Requeued(s, s', now) && used <= Quantum(d) && IdleIs(s) && s.current !in s.q.seat
    ensures Follows(s', t, d, used, s'.current == t)
  {
    hide Recalls, Switched, Enqueued, Quantum, Follows, IdleIs;
    if s.q.th[s.current].tid == 0 {
      SwitchedFollows(s, s', t, d, used);
    } else {
      var q :| Enqueued(s.q, q, s.current, now) && Switched(s.(q := q), s');
      EnqueuedRecalls(s, s.(q := q), s.current, now, t, d, used);
      EnqueuedIdle(s, s.(q := q), s.current, now);
      SwitchedFollows(s.(q := q), s', t, d, used);
    }
  }

  lemma UsedRecalls(s: Sys, t: nat, d: nat, used: nat)
    requires Recalls(s, t, d, used) && IdleIs(s) && (t == s.current ==> used < Quantum(d)) && s.current in s.q.th
    ensures Recalls(Used(s), t, d, used + if t == s.current then 1 else 0) && IdleIs(Used(s))
    ensures Used(s).q.seat == s.q.seat && Used(s).current == s.current
  {
  }

  lemma TickedFollows(s: Sys, s': Sys, now: nat, t: nat, d: nat, used: nat)
    requires Recalls(s, t, d, used) && Ticked(s, s', now) && IdleIs(s) && used <= Quantum(d)
    requires s.current !in s.q.seat && s.q.th[s.current].state == Running
    requires t == s.current ==> used < Quantum(d) && s.q.th[t].quantum == Quantum(d)
    ensures var u := used + if t == s.current then 1 else 0;
      u <= Quantum(d) && Follows(s', t, d, u, s'.current == t && (t != s.current || used + 1 >= Quantum(d)))
  {
    hide Requeued, Remaining, Quantum, NextLevel, IdleIs;
    UsedRecalls(s, t, d, used);
    var x, u := s.q.th[s.current], used + if t == s.current then 1 else 0;
    if t == s.current {
      assert Quantum(d) <= 200 by { QuantumBound(d); }
      RemainingIs(x.quantum, used + 1);
    }
    if Remaining(x.quantum, (x.passed + 1) % U32) <= 0 {
      RequeuedFollows(Used(s), s', now, t, d, u);
    }
  }

  lemma QuantumBound(d: nat)
    ensures Quantum(d) <= 200
  {
  }

  /** Waking and aging do not touch the running thread. */
  lemma RunnerKept(s: Sys, s1: Sys, s2: Sys, k: nat, now: nat, threshold: nat)
    requires Woken(s, s1, k, now) && AgedStep(s1, s2, now, threshold) && CurrentOk(s) && IdleIs(s)
    ensures s2.current == s.current && s2.current in s2.q.th && s2.current !in s2.q.seat && IdleIs(s2)
    ensures Bare(s2.q.th[s.current]) == Bare(s.q.th[s.current])
  {
    hide Bound, Quantum, AgedUpTo, Due;
    var c := s.current;
    assert c !in s.sleepers[..k] && c !in s1.q.seat;
    assert Bare(s1.q.th[c]) == Bare(s.q.th[c]);
    var y, z := s1.q.th[s.idle], s2.q.th[s.idle];
    assert Bare(y).tid == y.tid && Bare(z).tid == z.tid;
    if now % U32 % 100 == 0 {
      assert RisenAt(s1.q, s2.q, Rises(s1.q, LEVELS - 1, now, threshold, c), now, c);
      assert RisenAt(s1.q, s2.q, Rises(s1.q, LEVELS - 1, now, threshold, s.idle), now, s.idle);
    }
  }

  lemma TickFollows(s: Sys, s': Sys, now: nat, threshold: nat, t: nat, d: nat, used: nat)
    requires Recalls(s, t, d, used) && Step(s, Tick, s', now, threshold) && CurrentOk(s) && IdleIs(s)
    requires ApartOk(s.q, s.sleepers) && used <= Quantum(d)
    ensures used + Ticks(s, Tick, t) <= Quantum(d)
    ensures Follows(s', t, d, used + Ticks(s, Tick, t), Dispatches(s, Tick, s', t))
  {
    hide Woken, WakesOnly, AgedStep, Ticked, Quantum, IdleIs, Follows, ApartOk;
    var s1, s2, k :| TickStep(s, s1, s2, s', k, now, threshold);
    WokenRecalls(s, s1, k, now, t, d, used);
    AgedRecalls(s1, s2, now, threshold, t, d, used);
    RunnerKept(s, s1, s2, k, now, threshold);
    BareFields(s2.q.th[s.current], s.q.th[s.current]);
    TickedFollows(s2, s', now, t, d, used);
  }

  lemma LullsRecalls(s: Sys, s': Sys, k: nat, wake: nat, block: bool, t: nat, d: nat, used: nat)
    requires Recalls(s, t, d, used) && Lulls(s, s', k, wake, block) && IdleIs(s)
    ensures Recalls(s', t, d, used) && IdleIs(s')
  {
    hide Quantum, Inserted, PlaceFor;
  }

  lemma StoppedRecalls(s: Sys, s': Sys, t: nat, d: nat, used: nat)
    requires Recalls(s, t, d, used) && Stopped(s, s') && IdleIs(s) && s.current !in s.q.seat
    ensures Recalls(s', t, d, used) && IdleIs(s')
  {
    hide Quantum;
    if s' != s {
      var y, z := s'.q.th[t], s'.q.th[s.idle];
      assert Bare(y).tid == y.tid && Bare(y).passed == y.passed && Bare(y).estimate == y.estimate
        && Bare(y).priority == y.priority && Bare(z).tid == z.tid;
    }
  }

  lemma DozedFollows(s: Sys, s': Sys, wake: nat, block: bool, t: nat, d: nat, used: nat)
    requires Recalls(s, t, d, used) && Dozed(s, s', wake, block) && IdleIs(s) && used <= Quantum(d)
    ensures if s.q.th[s.current].tid == 0 then s' == s else Follows(s', t, d, used, s'.current == t)
  {
    hide Recalls, Switched, Lulls, Quantum, IdleIs, Follows;
    if s.q.th[s.current].tid != 0 {
      var s1, k :| Lulls(s, s1, k, wake, block) && Switched(s1, s');
      LullsRecalls(s, s1, k, wake, block, t, d, used);
      SwitchedFollows(s1, s', t, d, used);
    }
  }

  lemma HaltFollows(s: Sys, s': Sys, now: nat, threshold: nat, t: nat, d: nat, used: nat)
    requires Recalls(s, t, d, used) && Step(s, Halt, s', now, threshold) && IdleIs(s) && used <= Quantum(d)
    requires s.current !in s.q.seat
    ensures Follows(s', t, d, used, s'.current == t)
  {
    hide Recalls, Switched, Stopped, Quantum, IdleIs, Follows;
    var s1 :| Stopped(s, s1) && Switched(s1, s');
    StoppedRecalls(s, s1, t, d, used);
    SwitchedFollows(s1, s', t, d, used);
  }

  lemma StartFollows(s: Sys, x: nat, y: Thread, s': Sys, now: nat, t: nat, d: nat, used: nat)
    requires Recalls(s, t, d, used) && Enqueued(s.q.(th := s.q.th[x := y]), s'.q, x, now) && s' == s.(q := s'.q)
    requires x !in s.q.th && x !in s.q.seat
    ensures Recalls(s', t, d, used)
  {
    hide Quantum, Enqueued;
    EnqueuedRecalls(s.(q := s.q.(th := s.q.th[x := y])), s', x, now, t, d, used);
  }

  /** In any state: an event that dispatches `t` does so at the level its burst calls for, and every
      other event adds to the burst the tick that `t` was running for, if it was one. */
  lemma StepBurst(s: Sys, e: Event, s': Sys, now: nat, threshold: nat, t: nat)
    requires Good(s) && Step(s, e, s', now, threshold) && t in s.dispatched && t in s.q.th
    ensures var d, u := s.dispatched[t], s.q.th[t].passed + Ticks(s, e, t);
      u <= Quantum(d) && Follows(s', t, d, u, Dispatches(s, e, s', t))
  {
    hide Inv, Accounted, Enqueued, TickStep, Stopped, Switched, Requeued, Dozed, Quantum, NextLevel, ApartOk, CurrentOk;
    HistoryRecalls(s, t);
    var d, used := s.dispatched[t], s.q.th[t].passed;
    GoodFacts(s);
    match e {
      case Tick => TickFollows(s, s', now, threshold, t, d, used);
      case Doze(seconds) => DozedFollows(s, s', Until(now, SleepTicks(seconds)), false, t, d, used);
      case Nap(ns) => DozedFollows(s, s', Until(now, NapTicks(ns)), true, t, d, used);
      case Yield => RequeuedFollows(s, s', now, t, d, used);
      case Halt => HaltFollows(s, s', now, threshold, t, d, used);
      case Start(x, y) => if !(x in s.q.th || y.tid == 0) { StartFollows(s, x, y, s', now, t, d, used); }
      case Resume(x) =>
        if Resumable(s.q.th, x) {
          ResumableNowhere(s, x);
          EnqueuedRecalls(s, s', x, now, t, d, used);
        }
    }
  }

  lemma GoodFacts(s: Sys)
    requires Good(s)
    ensures IdleIs(s) && ApartOk(s.q, s.sleepers) && s.current in s.q.th && s.current !in s.q.seat
    ensures forall x :: x !in s.q.th ==> x !in s.q.seat
  {
    hide Linked, SleepOk, History, Quantum;
    forall x | x in s.q.seat ensures x in s.q.th { assert ReadyAt(s.q, x); }
  }

  /** The ticks in events i..n during which `t` ran. */
  ghost function TicksRun(trace: seq<Sys>, es: seq<Event>, t: nat, i: nat, n: nat): nat
    requires i <= n <= |es| && |trace| == |es| + 1
    decreases n
  {
    if n == i then 0 else TicksRun(trace, es, t, i, n - 1) + Ticks(trace[n - 1], es[n - 1], t)
  }

  /** Until it is dispatched, a thread remembers where it was dispatched last and how long it ran. */
  lemma {:induction false} BurstSoFar(trace: seq<Sys>, es: seq<Event>, start: nat, threshold: nat, t: nat, i: nat,
    n: nat)
    requires IsRun(trace, es, start, threshold) && (forall k :: 0 <= k < |trace| ==> Good(trace[k]))
    requires i <= n <= |es| && t in trace[i].dispatched
    requires forall k :: i <= k < n ==> !Dispatches(trace[k], es[k], trace[k + 1], t)
    ensures t in trace[i].q.th
    ensures Recalls(trace[n], t, trace[i].dispatched[t], trace[i].q.th[t].passed + TicksRun(trace, es, t, i, n))
    decreases n
  {
    hide Good, Step, Dispatches, Recalls, NextLevel, Quantum;
    if n == i {
      Remembered(trace[i], t);
    } else {
      BurstSoFar(trace, es, start, threshold, t, i, n - 1);
      var used := trace[i].q.th[t].passed + TicksRun(trace, es, t, i, n - 1);
      RecallsNext(trace, es, start, threshold, t, trace[i].dispatched[t], used, n - 1);
    }
  }

  lemma Remembered(s: Sys, t: nat)
    requires Good(s) && t in s.dispatched
    ensures t in s.q.th && Recalls(s, t, s.dispatched[t], s.q.th[t].passed)
  {
    hide Inv, Recalls;
    HistoryRecalls(s, t);
  }

  lemma RecallsNext(trace: seq<Sys>, es: seq<Event>, start: nat, threshold: nat, t: nat, d: nat, used: nat, k: nat)
    requires IsRun(trace, es, start, threshold) && k < |es| && Good(trace[k]) && Recalls(trace[k], t, d, used)
    requires !Dispatches(trace[k], es[k], trace[k + 1], t)
    ensures Recalls(trace[k + 1], t, d, used + Ticks(trace[k], es[k], t))
  {
    hide Good, Step, Dispatches, NextLevel, Quantum;
    StepBurst(trace[k], es[k], trace[k + 1], Clock(start, es, k + 1), threshold, t);
  }

  /** Over any run: a thread that was dispatched at level `d` and has run for `u` ticks when it is next
      dispatched, whatever else happens in between, is then dispatched at level d - 1 if the mean of
      its burst and its slice fits the slice of that level, and at level `d` otherwise. Its burst then
      begins anew. */
  lemma BurstDecides(trace: seq<Sys>, es: seq<Event>, start: nat, threshold: nat, t: nat, i: nat, n: nat)
    requires IsRun(trace, es, start, threshold) && (forall k :: 0 <= k < |trace| ==> Good(trace[k]))
    requires i <= n < |es| && t in trace[i].dispatched
    requires forall k :: i <= k < n ==> !Dispatches(trace[k], es[k], trace[k + 1], t)
    requires Dispatches(trace[n], es[n], trace[n + 1], t)
    ensures t in trace[i].q.th && t in trace[n + 1].dispatched && t in trace[n + 1].q.th
    ensures var d, u := trace[i].dispatched[t], trace[i].q.th[t].passed + TicksRun(trace, es, t, i, n + 1);
      && u <= Quantum(d)
      && trace[n + 1].dispatched[t] == (if d > 0 && u + Quantum(d) <= 2 * Quantum(d - 1) + 1 then d - 1 else d)
    ensures trace[n + 1].q.th[t].passed == 0
  {
    hide Good, Step, Dispatches, Quantum;
    BurstSoFar(trace, es, start, threshold, t, i, n);
    StepBurst(trace[n], es[n], trace[n + 1], Clock(start, es, n + 1), threshold, t);
  }

  /** What a tick does to the running thread: before the end of its slice it goes on with one tick
      more used, at the end it is queued, and perhaps dispatched again. */
  lemma TickSlice(s: Sys, s': Sys, now: nat, threshold: nat)
    requires Good(s) && Step(s, Tick, s', now, threshold) && s.q.th[s.current].tid != 0
    ensures var t, x := s.current, s.q.th[s.current];
      if x.passed + 1 < x.quantum
      then
        && s'.current == t && t in s'.q.th && s'.q.th[t].passed == x.passed + 1 && s'.q.th[t].quantum == x.quantum
        && s'.q.th[t].tid == x.tid
      else t in s'.q.seat || s'.current == t
  {
    hide Inv, Accounted, Woken, WakesOnly, AgedStep, Ticked, Quantum, IdleIs, ApartOk;
    GoodFacts(s);
    var s1, s2, k :| TickStep(s, s1, s2, s', k, now, threshold);
    RunnerKept(s, s1, s2, k, now, threshold);
    BareFields(s2.q.th[s.current], s.q.th[s.current]);
    assert s.q.th[s.current].quantum <= 200 by { QuantumBound(s.dispatched[s.current]); }
    TickedSlice(s2, s', now);
  }

  lemma TickedSlice(s: Sys, s': Sys, now: nat)
    requires Ticked(s, s', now) && s.q.th[s.current].tid != 0 && s.q.th[s.current].state == Running
    requires s.q.th[s.current].passed < s.q.th[s.current].quantum <= 200
    ensures var t, x := s.current, s.q.th[s.current];
      if x.passed + 1 < x.quantum then s' == Used(s) else t in s'.q.seat || s'.current == t
  {
    hide Enqueued, Switched;
    var x := s.q.th[s.current];
    RemainingIs(x.quantum, x.passed + 1);
    if x.passed + 1 >= x.quantum {
      var u := Used(s);
      var q :| Enqueued(u.q, q, u.current, now) && Switched(u.(q := q), s');
      QueuedOrRunning(u, u.(q := q), s', now);
    }
  }

  lemma QueuedOrRunning(s: Sys, s1: Sys, s': Sys, now: nat)
    requires Enqueued(s.q, s1.q, s.current, now) && s1 == s.(q := s1.q) && Switched(s1, s')
    ensures s.current in s'.q.seat || s'.current == s.current
  {
    hide Prepared, Quantum;
  }

  /** Over any run: a thread that does not give up the processor keeps it until the ticks it has used
      reach its slice. */
  lemma {:induction false} RunsItsSlice(trace: seq<Sys>, es: seq<Event>, start: nat, threshold: nat, t: nat, i: nat,
    n: nat)
    requires IsRun(trace, es, start, threshold) && (forall k :: 0 <= k < |trace| ==> Good(trace[k]))
    requires i <= n <= |es| && t == trace[i].current && t in trace[i].q.th && trace[i].q.th[t].tid != 0
    requires forall k :: i <= k < n ==> es[k].Tick? || es[k].Start? || es[k].Resume?
    requires trace[i].q.th[t].passed + Clock(start, es, n) < trace[i].q.th[t].quantum + Clock(start, es, i)
    ensures Clock(start, es, i) <= Clock(start, es, n) && trace[n].current == t && t in trace[n].q.th
    ensures trace[n].q.th[t].passed == trace[i].q.th[t].passed + (Clock(start, es, n) - Clock(start, es, i))
    ensures trace[n].q.th[t].quantum == trace[i].q.th[t].quantum && trace[n].q.th[t].tid != 0
    decreases n
  {
    hide Good, Step;
    if n > i {
      RunsItsSlice(trace, es, start, threshold, t, i, n - 1);
      var now := Clock(start, es, n);
      if es[n - 1].Tick? {
        TickSlice(trace[n - 1], trace[n], now, threshold);
      } else {
        OthersJoin(trace[n - 1], es[n - 1], trace[n], now, threshold);
      }
    }
  }

  lemma OthersJoin(s: Sys, e: Event, s': Sys, now: nat, threshold: nat)
    requires Good(s) && Step(s, e, s', now, threshold) && (e.Start? || e.Resume?)
    ensures s'.current == s.current && s'.current in s'.q.th
    ensures Bare(s'.q.th[s.current]) == Bare(s.q.th[s.current])
  {
    hide Inv, Quantum, IdleIs, ApartOk;
    GoodFacts(s);
    if e.Resume? && Resumable(s.q.th, e.t) { ResumableNowhere(s, e.t); }
  }
}
