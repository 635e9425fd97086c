/** No thread starves: aging brings every ready thread to the highest level, and from there it gets
    the CPU within a bounded number of ticks. */
module SchedFair {
  import opened Common
  import opened SchedQueues
  import opened Sched
  import opened SchedState
  import opened SchedOps
  import opened SchedRun

  /** Thread `t` is on the queue of level `p`. */
  ghost predicate At(s: Sys, p: nat, t: nat) {
    p < LEVELS == |s.q.queues| && t in s.q.queues[p]
  }

  /** Thread `t` is on the queue of the highest level, behind `k` others. */
  ghost predicate Front(s: Sys, k: nat, t: nat) {
    |s.q.queues| == LEVELS && k < |s.q.queues[0]| && s.q.queues[0][k] == t
  }

  /** A switch serves the thread or leaves it on its level. */
  lemma SwitchedAt(s: Sys, s': Sys, p: nat, t: nat)
    requires Switched(s, s') && At(s, p, t)
    ensures s'.current == t || At(s', p, t)
  {
    hide Prepared, Quantum;
    var r, s1, x :| Picked(s, s1, r, x) && s' == RunAs(s1, x);
    if r == p && x != t {
      var k :| 0 <= k < |s.q.queues[p]| && s.q.queues[p][k] == t;
      assert s'.q.queues[p][k - 1] == t;
    }
  }

  /** The queues after a tick's waking and aging. */
  lemma AgedAt(s: Sys, s': Sys, p: nat, t: nat, now: nat, threshold: nat)
    requires AgedStep(s, s', now, threshold) && At(s, p, t) && t in s.q.th
    ensures if now % U32 % 100 == 0 && Due(s.q.th[t], now, threshold) && p > 0 then At(s', p - 1, t) else At(s', p, t)
  {
    hide Risen, Due, Old, Young;
    if now % U32 % 100 == 0 && p > 0 {
      OldYoung(s.q.th, s.q.queues[p], now, threshold, t);
      assert s'.q.queues[p] == Part(s.q, p, LEVELS, now, threshold)
        && s'.q.queues[p - 1] == Part(s.q, p - 1, LEVELS, now, threshold);
    }
  }

  lemma WokenAt(s: Sys, s': Sys, k: nat, now: nat, p: nat, t: nat)
    requires Woken(s, s', k, now) && At(s, p, t) && t in s.q.th && t !in s.sleepers
    ensures At(s', p, t) && t in s'.q.th && s'.q.th[t].last == s.q.th[t].last
  {
    hide Bound;
    assert Bare(s'.q.th[t]).last == s'.q.th[t].last;
    var i :| 0 <= i < |s.q.queues[p]| && s.q.queues[p][i] == t;
    assert s'.q.queues[p][i] == t;
  }

  lemma EnqueuedAt(q: Queues, q': Queues, x: nat, now: nat, p: nat, t: nat)
    requires Enqueued(q, q', x, now) && p < LEVELS && t in q.queues[p]
    ensures |q'.queues| == LEVELS && t in q'.queues[p]
  {
    hide Quantum;
    var i :| 0 <= i < |q.queues[p]| && q.queues[p][i] == t;
    assert q'.queues[p][i] == t;
  }

  lemma RequeuedAt(s: Sys, s': Sys, now: nat, p: nat, t: nat)
    requires Requeued(s, s', now) && At(s, p, t)
    ensures s'.current == t || At(s', p, t)
  {
    hide Switched, Enqueued;
    if s.q.th[s.current].tid == 0 {
      SwitchedAt(s, s', p, t);
    } else {
      var q :| Enqueued(s.q, q, s.current, now) && Switched(s.(q := q), s');
      EnqueuedAt(s.q, q, s.current, now, p, t);
      SwitchedAt(s.(q := q), s', p, t);
    }
  }

  /** An aging pass in which thread `t` has waited long enough. */
  ghost predicate Eligible(s: Sys, e: Event, now: nat, threshold: nat, t: nat) {
    e.Tick? && now % U32 % 100 == 0 && t in s.q.th && Due(s.q.th[t], now, threshold)
  }

  lemma TickAt(s: Sys, s': Sys, now: nat, threshold: nat, p: nat, t: nat)
    requires Step(s, Tick, s', now, threshold) && At(s, p, t) && t in s.q.th && t !in s.sleepers
    ensures s'.current == t || At(s', if Eligible(s, Tick, now, threshold, t) && p > 0 then p - 1 else p, t)
  {
    hide Woken, WakesOnly, AgedStep, Requeued, At, Remaining, Waited;
    var s1, s2, k :| TickStep(s, s1, s2, s', k, now, threshold);
    WokenAt(s, s1, k, now, p, t);
    AgedAt(s1, s2, p, t, now, threshold);
    var p' := if Eligible(s, Tick, now, threshold, t) && p > 0 then p - 1 else p;
    assert At(s2, p', t);
    assert At(Used(s2), p', t) by { UsedAt(s2, p', t); }
    var x := s2.q.th[s2.current];
    if x.state == Running && Remaining(x.quantum, (x.passed + 1) % U32) <= 0 { RequeuedAt(Used(s2), s', now, p', t); }
  }

  lemma UsedAt(s: Sys, p: nat, t: nat)
    requires At(s, p, t)
    ensures At(Used(s), p, t)
  {
  }

  /** Where a ready thread is known to be. */
  lemma AtFacts(s: Sys, p: nat, t: nat)
    requires Inv(s) && At(s, p, t)
    ensures t in s.q.th && t in s.q.seat && t !in s.sleepers
  {
    hide Linked, ReadyOk, History, SleepOk, Idle;
    InQueue(s.q, p, t);
    QueuedIn(s.q, p, t);
  }

  lemma DozedAt(s: Sys, s': Sys, wake: nat, block: bool, p: nat, t: nat)
    requires Dozed(s, s', wake, block) && At(s, p, t)
    ensures s'.current == t || At(s', p, t)
  {
    hide Switched, PlaceFor, Inserted, Lulled;
    if s.q.th[s.current].tid != 0 {
      var s1, k :| Lulls(s, s1, k, wake, block) && Switched(s1, s');
      SwitchedAt(s1, s', p, t);
    }
  }

  lemma StoppedAt(s: Sys, s': Sys, now: nat, threshold: nat, p: nat, t: nat)
    requires Step(s, Halt, s', now, threshold) && CurrentOk(s) && At(s, p, t)
    ensures s'.current == t || At(s', p, t)
  {
    hide Switched, Quantum;
    var s1 :| Stopped(s, s1) && Switched(s1, s');
    SwitchedAt(s1, s', p, t);
  }

  /** Every event serves a ready thread, or leaves it on its level, or is an aging pass it is
      eligible for and lifts it. */
  lemma StepAt(s: Sys, e: Event, s': Sys, now: nat, threshold: nat, p: nat, t: nat)
    requires Good(s) && Step(s, e, s', now, threshold) && At(s, p, t)
    ensures s'.current == t || At(s', if Eligible(s, e, now, threshold, t) && p > 0 then p - 1 else p, t)
  {
    AtFacts(s, p, t);
    hide Inv, Accounted, Enqueued, TickStep, Stopped, Switched, Requeued, Dozed, Due, Step;
    match e {
      case Tick => TickAt(s, s', now, threshold, p, t);
      case Halt => StoppedAt(s, s', now, threshold, p, t);
      case _ => OtherAt(s, e, s', now, threshold, p, t);
    }
  }

  lemma OtherAt(s: Sys, e: Event, s': Sys, now: nat, threshold: nat, p: nat, t: nat)
    requires Step(s, e, s', now, threshold) && At(s, p, t) && !e.Tick? && !e.Halt?
    ensures s'.current == t || At(s', p, t)
  {
    hide Enqueued, TickStep, Stopped, Switched, Requeued, Dozed;
    match e {
      case Tick => assert false;
      case Doze(seconds) => DozedAt(s, s', Until(now, SleepTicks(seconds)), false, p, t);
      case Nap(ns) => DozedAt(s, s', Until(now, NapTicks(ns)), true, p, t);
      case Yield => RequeuedAt(s, s', now, p, t);
      case Halt => assert false;
      case Start(x, y) =>
        if !(x in s.q.th || y.tid == 0) { EnqueuedAt(s.q.(th := s.q.th[x := y]), s'.q, x, now, p, t); }
      case Resume(x) => if Resumable(s.q.th, x) { EnqueuedAt(s.q, s'.q, x, now, p, t); }
    }
  }

  /** The aging passes among the first `n` events for which thread `t` was eligible. */
  ghost function Passes(trace: seq<Sys>, es: seq<Event>, start: nat, threshold: nat, t: nat, n: nat): nat
    requires |trace| == |es| + 1 && n <= |es|
  {
    if n == 0 then 0
    else
      Passes(trace, es, start, threshold, t, n - 1) +
      if Eligible(trace[n - 1], es[n - 1], Clock(start, es, n), threshold, t) then 1 else 0
  }

  ghost predicate AllGood(trace: seq<Sys>) {
    forall i :: 0 <= i < |trace| ==> Good(trace[i])
  }

  /** Thread `t` runs at some point of the first `n` events. */
  ghost predicate Served(trace: seq<Sys>, t: nat, i: nat, n: nat) {
    exists j :: i < j <= n && j < |trace| && trace[j].current == t
  }

  /** A ready thread that is not served rises by one level with each pass it is eligible for. */
  lemma {:induction false} Climb(trace: seq<Sys>, es: seq<Event>, start: nat, threshold: nat, p: nat, t: nat, n: nat)
    returns (p': nat)
    requires IsRun(trace, es, start, threshold) && AllGood(trace) && At(trace[0], p, t) && n <= |es|
    ensures Served(trace, t, 0, n)
      || (At(trace[n], p', t) && p' <= p && (p' == 0 || p' + Passes(trace, es, start, threshold, t, n) <= p))
  {
    hide Good, Step, Eligible, At;
    if n == 0 { return p; }
    p' := Climb(trace, es, start, threshold, p, t, n - 1);
    if !Served(trace, t, 0, n - 1) {
      StepAt(trace[n - 1], es[n - 1], trace[n], Clock(start, es, n), threshold, p', t);
      if Eligible(trace[n - 1], es[n - 1], Clock(start, es, n), threshold, t) && p' > 0 { p' := p' - 1; }
    }
  }

  /** The ticks after which a running thread is replaced. */
  function TicksLeft(x: Thread): (n: nat)
    ensures n >= 1
  {
    var r := Remaining(x.quantum, (x.passed + 1) % U32);
    if r <= 0 then 1 else r + 1
  }

  /** A tick uses one of them. */
  lemma TicksLeftNext(x: Thread)
    requires Remaining(x.quantum, (x.passed + 1) % U32) > 0
    ensures TicksLeft(x.(passed := (x.passed + 1) % U32)) + 1 <= TicksLeft(x)
  {
    var a, b := (x.passed + 1) % U32, ((x.passed + 1) % U32 + 1) % U32;
    assert (x.quantum - b) % U32 == ((x.quantum - a) % U32 - 1) % U32;
  }

  /** A thread that is not an idle task is replaced after what is left of its slice. */
  lemma TicksLeftIs(s: Sys)
    requires CurrentOk(s) && s.q.th[s.current].tid != 0
    ensures TicksLeft(s.q.th[s.current]) == s.q.th[s.current].quantum - s.q.th[s.current].passed <= SLICE
  {
    var x := s.q.th[s.current];
    RemainingIs(x.quantum, x.passed + 1);
  }

  /** The longest slice. */
  const SLICE := 200

  /** A bound on the ticks until the thread behind `k` others on the highest level runs. */
  ghost function Wait(s: Sys, k: nat): nat
    requires s.current in s.q.th
  {
    SLICE * k + TicksLeft(s.q.th[s.current])
  }

  /** Thread `t` is on the highest level with the wait `w` or less. */
  ghost predicate Close(s: Sys, t: nat, w: int) {
    exists k :: Front(s, k, t) && s.current in s.q.th && Wait(s, k) <= w
  }

  /** It is, or it runs. */
  ghost predicate Nearer(s: Sys, t: nat, w: int) {
    s.current == t || Close(s, t, w)
  }

  lemma SwitchedFront(s: Sys, s': Sys, k: nat, t: nat)
    requires Switched(s, s') && Front(s, k, t)
    ensures Nearer(s', t, SLICE * k)
  {
    hide Prepared;
    var r, s1, x :| Picked(s, s1, r, x) && s' == RunAs(s1, x);
    assert r == 0;
    var y := s'.q.th[x];
    RemainingIs(y.quantum, 1);
    if k > 0 { assert Front(s', k - 1, t); }
  }

  lemma RequeuedFront(s: Sys, s': Sys, now: nat, k: nat, t: nat)
    requires Requeued(s, s', now) && Front(s, k, t)
    ensures Nearer(s', t, SLICE * k)
  {
    hide Switched, Quantum, Nearer;
    if s.q.th[s.current].tid == 0 {
      SwitchedFront(s, s', k, t);
    } else {
      var q :| Enqueued(s.q, q, s.current, now) && Switched(s.(q := q), s');
      SwitchedFront(s.(q := q), s', k, t);
    }
  }

  /** Waking and aging change neither the running thread nor who is ahead on the highest level. */
  ghost predicate SameFront(s: Sys, s': Sys) {
    && |s.q.queues| == |s'.q.queues| == LEVELS && s.q.queues[0] <= s'.q.queues[0]
    && s'.current == s.current && s.current in s.q.th && s.current in s'.q.th
      && Bare(s'.q.th[s.current]) == Bare(s.q.th[s.current])
  }

  lemma SameFrontWait(s: Sys, s': Sys, k: nat, t: nat)
    requires SameFront(s, s') && Front(s, k, t)
    ensures Front(s', k, t) && Wait(s', k) == Wait(s, k)
  {
    var x, y := s.q.th[s.current], s'.q.th[s.current];
    assert Bare(x).quantum == x.quantum && Bare(y).quantum == y.quantum && Bare(x).passed == x.passed
      && Bare(y).passed == y.passed;
  }

  lemma WokenFront(s: Sys, s': Sys, k: nat, now: nat)
    requires Woken(s, s', k, now) && CurrentOk(s)
    ensures SameFront(s, s') && s.current !in s'.q.seat
  {
    hide Bound, Quantum;
  }

  lemma AgedFront(s: Sys, s': Sys, now: nat, threshold: nat)
    requires AgedStep(s, s', now, threshold) && s.current in s.q.th && s.current !in s.q.seat && |s.q.queues| == LEVELS
    ensures SameFront(s, s')
  {
    hide Old, Young, Due;
    if now % U32 % 100 == 0 {
      assert RisenAt(s.q, s'.q, Rises(s.q, LEVELS - 1, now, threshold, s.current), now, s.current);
      assert s'.q.queues[0] == Part(s.q, 0, LEVELS, now, threshold);
    }
  }

  lemma TickedFront(s: Sys, s': Sys, now: nat, k: nat, t: nat)
    requires Ticked(s, s', now) && Front(s, k, t) && s.q.th[s.current].state == Running
    ensures Nearer(s', t, Wait(s, k) - 1)
  {
    hide Requeued, Remaining;
    var x := s.q.th[s.current];
    if Remaining(x.quantum, (x.passed + 1) % U32) > 0 {
      TicksLeftNext(x);
      assert Front(s', k, t);
    } else {
      RequeuedFront(Used(s), s', now, k, t);
    }
  }

  lemma TickFront(s: Sys, s': Sys, now: nat, threshold: nat, k: nat, t: nat)
    requires Step(s, Tick, s', now, threshold) && CurrentOk(s) && Front(s, k, t)
    ensures Nearer(s', t, Wait(s, k) - 1)
  {
    hide Woken, WakesOnly, AgedStep, Ticked, Nearer, Wait, Front, SameFront, Quantum;
    var s1, s2, i :| TickStep(s, s1, s2, s', i, now, threshold);
    WokenFront(s, s1, i, now);
    SameFrontWait(s, s1, k, t);
    CurrentFacts(s, s1);
    AgedFront(s1, s2, now, threshold);
    SameFrontWait(s1, s2, k, t);
    CurrentFacts(s1, s2);
    TickedFront(s2, s', now, k, t);
  }

  lemma CurrentFacts(s: Sys, s': Sys)
    requires SameFront(s, s')
    ensures s'.current == s.current && s.current in s.q.th && s.current in s'.q.th
    ensures |s.q.queues| == |s'.q.queues| == LEVELS
    ensures s'.q.th[s.current].state == s.q.th[s.current].state
  {
    var x, y := s.q.th[s.current], s'.q.th[s.current];
    assert Bare(x).state == x.state && Bare(y).state == y.state;
  }

  lemma DozedFront(s: Sys, s': Sys, wake: nat, block: bool, k: nat, t: nat)
    requires Dozed(s, s', wake, block) && Front(s, k, t)
    ensures Nearer(s', t, Wait(s, k))
  {
    hide Switched, PlaceFor, Inserted, Lulled, TicksLeft;
    if s.q.th[s.current].tid != 0 {
      var s1, i :| Lulls(s, s1, i, wake, block) && Switched(s1, s');
      SwitchedFront(s1, s', k, t);
    }
  }

  lemma HaltFront(s: Sys, s': Sys, now: nat, threshold: nat, k: nat, t: nat)
    requires Step(s, Halt, s', now, threshold) && CurrentOk(s) && Front(s, k, t)
    ensures Nearer(s', t, Wait(s, k))
  {
    hide Switched, Quantum, TicksLeft;
    var s1 :| Stopped(s, s1) && Switched(s1, s');
    SwitchedFront(s1, s', k, t);
  }

  lemma EnqueuedFront(s: Sys, q: Queues, s': Sys, x: nat, now: nat, k: nat, t: nat)
    requires Enqueued(q, s'.q, x, now) && s' == s.(q := s'.q) && q.queues == s.q.queues && s.current in q.th
    requires x != s.current
    requires s.current in s.q.th && q.th[s.current] == s.q.th[s.current] && Front(s, k, t)
    ensures Nearer(s', t, Wait(s, k))
  {
    hide Quantum, TicksLeft;
    assert SameFront(s, s');
    SameFrontWait(s, s', k, t);
  }

  /** Every event brings the thread nearer to the CPU or does not delay it, and a tick brings it
      nearer. */
  lemma StepFront(s: Sys, e: Event, s': Sys, now: nat, threshold: nat, k: nat, t: nat)
    requires Good(s) && Step(s, e, s', now, threshold) && Front(s, k, t)
    ensures Nearer(s', t, Wait(s, k) - if e.Tick? then 1 else 0)
  {
    hide Linked, ReadyOk, History, SleepOk, ApartOk, Idle, Accounted, Enqueued, TickStep, Stopped, Switched,
      Requeued, Dozed, Quantum, TicksLeft;
    match e {
      case Tick => TickFront(s, s', now, threshold, k, t);
      case Doze(seconds) => DozedFront(s, s', Until(now, SleepTicks(seconds)), false, k, t);
      case Nap(ns) => DozedFront(s, s', Until(now, NapTicks(ns)), true, k, t);
      case Yield => RequeuedFront(s, s', now, k, t);
      case Halt => HaltFront(s, s', now, threshold, k, t);
      case Start(x, y) =>
        if !(x in s.q.th || y.tid == 0) { EnqueuedFront(s, s.q.(th := s.q.th[x := y]), s', x, now, k, t); }
      case Resume(x) => if Resumable(s.q.th, x) {
        ResumableNowhere(s, x);
        EnqueuedFront(s, s.q, s', x, now, k, t);
      }
    }
  }

  /** Over a run, the wait of a thread on the highest level shrinks by every tick. */
  lemma {:induction false} Approach(trace: seq<Sys>, es: seq<Event>, start: nat, threshold: nat, k: nat, t: nat,
    i: nat, n: nat)
    requires IsRun(trace, es, start, threshold) && AllGood(trace) && i <= n <= |es|
    requires Front(trace[i], k, t) && trace[i].current in trace[i].q.th
    ensures Served(trace, t, i, n) || Close(trace[n], t, Wait(trace[i], k) + Clock(start, es, i) - Clock(start, es, n))
    decreases n
  {
    hide Good, Step, Front, Wait;
    if n > i {
      Approach(trace, es, start, threshold, k, t, i, n - 1);
      if !Served(trace, t, i, n - 1) {
        var j :| Front(trace[n - 1], j, t) && trace[n - 1].current in trace[n - 1].q.th
          && Wait(trace[n - 1], j) <= Wait(trace[i], k) + Clock(start, es, i) - Clock(start, es, n - 1);
        StepFront(trace[n - 1], es[n - 1], trace[n], Clock(start, es, n), threshold, j, t);
      }
    }
  }

  /** A thread on the highest level runs before its wait is over. */
  lemma FrontServed(trace: seq<Sys>, es: seq<Event>, start: nat, threshold: nat, k: nat, t: nat, i: nat, n: nat)
    requires IsRun(trace, es, start, threshold) && AllGood(trace) && i <= n <= |es|
    requires Front(trace[i], k, t) && trace[i].current in trace[i].q.th
    requires Clock(start, es, n) >= Clock(start, es, i) + Wait(trace[i], k)
    ensures Served(trace, t, i, n)
  {
    hide IsRun, AllGood, Front;
    Approach(trace, es, start, threshold, k, t, i, n);
  }

  /** While a thread other than an idle task runs, that is at most one longest slice for it and one for
      each thread ahead. */
  lemma FrontInSlices(trace: seq<Sys>, es: seq<Event>, start: nat, threshold: nat, k: nat, t: nat, i: nat, n: nat)
    requires IsRun(trace, es, start, threshold) && AllGood(trace) && i <= n <= |es|
    requires Front(trace[i], k, t) && trace[i].current in trace[i].q.th && trace[i].q.th[trace[i].current].tid != 0
    requires Clock(start, es, n) >= Clock(start, es, i) + SLICE * (k + 1)
    ensures Served(trace, t, i, n)
  {
    assert Good(trace[i]);
    hide IsRun, AllGood, Front, Inv, Accounted, Clock, Quantum, TicksLeft;
    TicksLeftIs(trace[i]);
    FrontServed(trace, es, start, threshold, k, t, i, n);
  }

  /** A bound on the wait of every thread on the highest level: a slice for each of them after the
      one that runs. */
  ghost function LongestWait(s: Sys): nat {
    if s.current in s.q.th && |s.q.queues| == LEVELS then SLICE * |s.q.queues[0]| + TicksLeft(s.q.th[s.current]) else 0
  }

  /** No starvation, for every threshold: a ready thread on level `p` runs, at the latest, once it
      was eligible for `p` aging passes and then every thread on the highest level has had a slice. */
  lemma NoStarvation(trace: seq<Sys>, es: seq<Event>, start: nat, threshold: nat, p: nat, t: nat, m: nat)
    requires IsRun(trace, es, start, threshold) && AllGood(trace) && At(trace[0], p, t) && m <= |es|
    requires Passes(trace, es, start, threshold, t, m) >= p
    requires Clock(start, es, |es|) >= Clock(start, es, m) + LongestWait(trace[m])
    ensures Served(trace, t, 0, |es|)
  {
    hide Step, Inv, Accounted, Passes, Clock, TicksLeft, Quantum;
    var p' := Climb(trace, es, start, threshold, p, t, m);
    if !Served(trace, t, 0, m) {
      assert Good(trace[m]);
      var k :| 0 <= k < |trace[m].q.queues[0]| && trace[m].q.queues[0][k] == t;
      FrontServed(trace, es, start, threshold, k, t, m, |es|);
    }
  }

  /** The ticks after `a`, up to `b`, that age the queues. */
  function Hundreds(a: nat, b: nat): nat {
    if b <= a then 0 else Hundreds(a, b - 1) + if b % U32 % 100 == 0 then 1 else 0
  }

  lemma {:induction false} HundredsMono(a: nat, b: nat, c: nat)
    requires b <= c
    ensures Hundreds(a, b) <= Hundreds(a, c)
  {
    if b < c { HundredsMono(a, b, c - 1); }
  }

  lemma HundredIn(b: nat) returns (d: nat)
    ensures 1 <= d <= 100 && (b + d) % U32 % 100 == 0
  {
    var n, r := b / U32, b % U32;
    if r - r % 100 + 100 < U32 {
      d := 100 - r % 100;
      assert b + d == U32 * n + (r + d);
      assert (b + d) % U32 == r + d;
      assert r + d == 100 * (r / 100 + 1);
    } else {
      d := U32 - r;
      assert b + d == U32 * (n + 1);
      assert (b + d) % U32 == 0;
    }
  }

  /** There is one within every hundred ticks, also where the 32-bit count wraps. */
  lemma HundredNext(a: nat, b: nat)
    requires a <= b
    ensures Hundreds(a, b + 100) >= Hundreds(a, b) + 1
  {
    var d := HundredIn(b);
    HundredsMono(a, b, b + d - 1);
    assert Hundreds(a, b + d) == Hundreds(a, b + d - 1) + 1;
    HundredsMono(a, b + d, b + 100);
  }

  /** With the threshold that the code has, a thread that is not served is eligible for each of them. */
  lemma {:induction false} EveryPass(trace: seq<Sys>, es: seq<Event>, start: nat, p: nat, t: nat, n: nat)
    requires IsRun(trace, es, start, EXPANDED) && AllGood(trace) && At(trace[0], p, t) && n <= |es|
    ensures start <= Clock(start, es, n)
    ensures Served(trace, t, 0, n) || Passes(trace, es, start, EXPANDED, t, n) == Hundreds(start, Clock(start, es, n))
  {
    hide Step, Inv, Accounted, CurrentOk;
    if n > 0 {
      EveryPass(trace, es, start, p, t, n - 1);
      if !Served(trace, t, 0, n - 1) {
        var p' := Climb(trace, es, start, EXPANDED, p, t, n - 1);
        assert Good(trace[n - 1]);
        AtFacts(trace[n - 1], p', t);
      }
    }
  }

  /** No starvation in the code as it is: after 300 ticks and one slice for every thread on the
      highest level, a thread that was ready has run. */
  lemma NeverStarves(trace: seq<Sys>, es: seq<Event>, start: nat, p: nat, t: nat, m: nat)
    requires IsRun(trace, es, start, EXPANDED) && AllGood(trace) && At(trace[0], p, t) && m <= |es|
    requires Clock(start, es, m) >= start + 300
    requires Clock(start, es, |es|) >= Clock(start, es, m) + LongestWait(trace[m])
    ensures Served(trace, t, 0, |es|)
  {
    hide IsRun, AllGood, Passes, Hundreds, LongestWait, Clock;
    EveryPass(trace, es, start, p, t, m);
    if !Served(trace, t, 0, m) {
      HundredNext(start, start);
      HundredNext(start, start + 100);
      HundredNext(start, start + 200);
      HundredsMono(start, start + 300, Clock(start, es, m));
      NoStarvation(trace, es, start, EXPANDED, p, t, m);
    }
  }
}
