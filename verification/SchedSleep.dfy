/** How long a sleep lasts. */
module SchedSleep {
  import opened Common
  import opened SchedQueues
  import opened Sched
  import opened SchedState
  import opened SchedOps
  import opened SchedRun

  /** A sleep that begins at `now` and ends by itself at tick `now + d` at the earliest lasts `d` ticks. */
  ghost predicate Lasts(now: nat, ticks: nat, d: nat) {
    && d >= 1 && Until(now, ticks) <= (now + d) % U32
    && (forall n :: now < n < now + d ==> Until(now, ticks) > n % U32)
  }

  /** The ticks a sleep should last: no sleep ends before the next tick. */
  function Wanted(ticks: nat): nat {
    if ticks == 0 then 1 else ticks
  }

  /** It does so exactly if its end does not lie across the wrap of the 32-bit tick, or the wrap is at
      the very next tick and there is something left to sleep, at most one whole round. */
  predicate InTime(now: nat, ticks: nat) {
    if ticks == 0 then now % U32 < U32 - 1
    else ticks == 1 || now % U32 + ticks < U32 || (now % U32 == U32 - 1 && ticks <= U32)
  }

  lemma Later(now: nat, d: nat)
    requires d <= U32
    ensures (now + d) % U32 == if now % U32 + d < U32 then now % U32 + d else now % U32 + d - U32
  {
  }

  lemma SleepLength(now: nat, ticks: nat)
    ensures Lasts(now, ticks, Wanted(ticks)) <==> InTime(now, ticks)
  {
    hide Until;
    var w := Wanted(ticks);
    Later(now, 1);
    if ticks <= U32 {
      UntilIs(now, ticks);
      Later(now, w);
      if InTime(now, ticks) {
        forall n | now < n < now + w ensures Until(now, ticks) > n % U32 { Later(now, n - now); }
      } else if ticks > 1 {
        assert !(Until(now, ticks) > (now + 1) % U32);
      }
    } else {
      TooLong(now, ticks);
    }
  }

  /** A sleep of more than a round ends in its first round. */
  lemma TooLong(now: nat, ticks: nat)
    requires ticks > U32
    ensures !Lasts(now, ticks, ticks)
  {
    var d := (ticks - 1) % U32 + 1;
    assert now + ticks == now + d + U32 * ((ticks - 1) / U32);
    assert Until(now, ticks) == (now + d) % U32 by { Round(now + d, (ticks - 1) / U32); }
  }

  lemma {:induction false} Round(n: nat, k: nat)
    ensures (n + U32 * k) % U32 == n % U32
  {
    if k > 0 { Round(n, k - 1); }
  }

  lemma UntilIs(now: nat, ticks: nat)
    requires ticks <= U32
    ensures Until(now, ticks) == if now % U32 + ticks < U32 then now % U32 + ticks else now % U32 + ticks - U32
  {
    Later(now, ticks);
  }

  /** A sleep of five ticks that begins two ticks before the wrap is over at the next tick. */
  lemma SleepCut()
    ensures Lasts(U32 - 2, 5, 1) && !Lasts(U32 - 2, 5, 5)
  {
    SleepLength(U32 - 2, 5);
  }

  /** A sleep of no ticks that begins at the last tick before the wrap lasts until the next one. */
  lemma SleepStuck()
    ensures Lasts(U32 - 1, 0, U32) && !Lasts(U32 - 1, 0, 1)
  {
    forall n | U32 - 1 < n < U32 - 1 + U32 ensures Until(U32 - 1, 0) > n % U32 { Later(U32 - 1, n - (U32 - 1)); }
  }

  /** Thread `t` sleeps until tick `w`. */
  ghost predicate Asleep(s: Sys, t: nat, w: nat) {
    t in s.sleepers && t in s.q.th && s.q.th[t].wakeup == w
  }

  lemma SwitchedAsleep(s: Sys, s': Sys, t: nat, w: nat)
    requires Switched(s, s') && Asleep(s, t, w) && s.idle != t
    ensures Asleep(s', t, w)
  {
    hide Prepared, Quantum;
    if !(forall p :: 0 <= p < LEVELS ==> s.q.queues[p] == []) {
      var p, s1, x :| Picked(s, s1, p, x) && s' == RunAs(s1, x);
      assert Bare(s1.q.th[t]).wakeup == s1.q.th[t].wakeup;
    }
  }

  lemma EnqueuedAsleep(s: Sys, q: Queues, s': Sys, x: nat, now: nat, t: nat, w: nat)
    requires Enqueued(q, s'.q, x, now) && s' == s.(q := s'.q) && t in q.th && q.th[t].wakeup == w && t in s.sleepers
    requires x != t
    ensures Asleep(s', t, w)
  {
    hide Quantum;
    assert Bare(s'.q.th[t]) == Bare(q.th[t]);
    assert Bare(s'.q.th[t]).wakeup == s'.q.th[t].wakeup;
  }

  lemma RequeuedAsleep(s: Sys, s': Sys, now: nat, t: nat, w: nat)
    requires Requeued(s, s', now) && Asleep(s, t, w) && s.idle != t && s.current != t
    ensures Asleep(s', t, w)
  {
    hide Switched, Enqueued;
    if s.q.th[s.current].tid == 0 {
      SwitchedAsleep(s, s', t, w);
    } else {
      var q :| Enqueued(s.q, q, s.current, now) && Switched(s.(q := q), s');
      EnqueuedAsleep(s, s.q, s.(q := q), s.current, now, t, w);
      SwitchedAsleep(s.(q := q), s', t, w);
    }
  }

  /** Waking takes exactly the sleepers whose time has come off the list. */
  lemma WokenAsleep(s: Sys, s': Sys, k: nat, now: nat, t: nat, w: nat)
    requires Woken(s, s', k, now) && WakesOnly(s, k, now) && Asleep(s, t, w) && Distinct(s.sleepers)
    ensures if w <= now % U32 then t !in s'.sleepers else Asleep(s', t, w)
  {
    hide Bound, Quantum;
    var i :| 0 <= i < |s.sleepers| && s.sleepers[i] == t;
    if i >= k {
      assert s'.sleepers[i - k] == t;
      assert t !in s.sleepers[..k];
      assert Bare(s'.q.th[t]).wakeup == s'.q.th[t].wakeup;
    }
  }

  lemma AgedAsleep(s: Sys, s': Sys, now: nat, threshold: nat, t: nat, w: nat)
    requires AgedStep(s, s', now, threshold) && Asleep(s, t, w) && t !in s.q.seat
    ensures Asleep(s', t, w)
  {
    hide AgedUpTo, Due;
    if now % U32 % 100 == 0 {
      assert RisenAt(s.q, s'.q, Rises(s.q, LEVELS - 1, now, threshold, t), now, t);
      assert Bare(s'.q.th[t]).wakeup == s'.q.th[t].wakeup;
    }
  }

  lemma TickedAsleep(s: Sys, s': Sys, now: nat, t: nat, w: nat)
    requires Ticked(s, s', now) && Asleep(s, t, w) && s.idle != t && s.current != t
    ensures Asleep(s', t, w)
  {
    hide Requeued, Remaining;
    var x := s.q.th[s.current];
    if x.state == Running && Remaining(x.quantum, (x.passed + 1) % U32) <= 0 { RequeuedAsleep(Used(s), s', now, t, w); }
  }

  /** The sleepers after a tick are those that were not woken. */
  lemma TickedSleepers(s: Sys, s': Sys, now: nat)
    requires Ticked(s, s', now)
    ensures s'.sleepers == s.sleepers
  {
    hide Enqueued, Picked, Remaining;
    var x := s.q.th[s.current];
    if x.state == Running && Remaining(x.quantum, (x.passed + 1) % U32) <= 0 {
      var u := Used(s);
      if x.tid == 0 {
        SwitchedSleepers(u, s');
      } else {
        var q :| Enqueued(u.q, q, u.current, now) && Switched(u.(q := q), s');
        SwitchedSleepers(u.(q := q), s');
      }
    }
  }

  lemma SwitchedSleepers(s: Sys, s': Sys)
    requires Switched(s, s')
    ensures s'.sleepers == s.sleepers
  {
    hide Taken, Quantum;
  }

  lemma TickAsleep(s: Sys, s': Sys, now: nat, threshold: nat, t: nat, w: nat)
    requires Step(s, Tick, s', now, threshold) && Asleep(s, t, w) && Distinct(s.sleepers) && s.idle != t
    requires s.current != t && t !in s.q.seat
    ensures if w <= now % U32 then t !in s'.sleepers else Asleep(s', t, w)
  {
    hide Woken, WakesOnly, AgedStep, Ticked;
    var s1, s2, k :| TickStep(s, s1, s2, s', k, now, threshold);
    WokenAsleep(s, s1, k, now, t, w);
    assert s1.current == s.current && s1.idle == s.idle by { WokenDispatched(s, s1, k, now); WokenIdle(s, s1, k, now); }
    assert s2.sleepers == s1.sleepers && s2.current == s1.current
      && s2.idle == s1.idle by { AgedSame(s1, s2, now, threshold); }
    TickedSleepers(s2, s', now);
    if w > now % U32 {
      WokenSeat(s, s1, k, now, t);
      AgedAsleep(s1, s2, now, threshold, t, w);
      TickedAsleep(s2, s', now, t, w);
    }
  }

  lemma WokenIdle(s: Sys, s': Sys, k: nat, now: nat)
    requires Woken(s, s', k, now)
    ensures s'.idle == s.idle
  {
  }

  lemma WokenSeat(s: Sys, s': Sys, k: nat, now: nat, t: nat)
    requires Woken(s, s', k, now) && t in s'.sleepers && t !in s.q.seat && Distinct(s.sleepers)
    ensures t !in s'.q.seat
  {
    hide Bound, Quantum;
    var i :| 0 <= i < |s'.sleepers| && s'.sleepers[i] == t;
    assert s.sleepers[i + k] == t;
    assert t !in s.sleepers[..k];
  }

  lemma AgedSame(s: Sys, s': Sys, now: nat, threshold: nat)
    requires AgedStep(s, s', now, threshold)
    ensures s'.sleepers == s.sleepers && s'.current == s.current && s'.idle == s.idle
  {
  }

  lemma DozedAsleep(s: Sys, s': Sys, wake: nat, block: bool, t: nat, w: nat)
    requires Dozed(s, s', wake, block) && Asleep(s, t, w) && s.idle != t && s.current != t
    ensures Asleep(s', t, w)
  {
    hide Switched;
    if s.q.th[s.current].tid != 0 {
      var s1, k :| Lulls(s, s1, k, wake, block) && Switched(s1, s');
      InsertedSize(s.sleepers, k, s.current);
      SwitchedAsleep(s1, s', t, w);
    }
  }

  lemma HaltAsleep(s: Sys, s': Sys, now: nat, threshold: nat, t: nat, w: nat)
    requires Step(s, Halt, s', now, threshold) && Asleep(s, t, w) && s.idle != t && s.current != t
    ensures Asleep(s', t, w)
  {
    hide Switched;
    var s1 :| Stopped(s, s1) && Switched(s1, s');
    assert Bare(s1.q.th[t]).wakeup == s1.q.th[t].wakeup;
    SwitchedAsleep(s1, s', t, w);
  }

  /** What is known of a sleeper. */
  lemma AsleepFacts(s: Sys, t: nat)
    requires Good(s) && t in s.sleepers
    ensures Distinct(s.sleepers) && s.idle != t && s.current != t && t !in s.q.seat && t in s.q.th
    ensures s.q.th[t].state != Dead
  {
    hide Linked, ReadyOk, History, Quantum;
    assert Placed(s, t, s.current);
  }

  /** A sleeper is woken by a tick at which its time has come, and by nothing else. */
  lemma StepAsleep(s: Sys, e: Event, s': Sys, now: nat, threshold: nat, t: nat, w: nat)
    requires Good(s) && Step(s, e, s', now, threshold) && Asleep(s, t, w)
    ensures if e.Tick? && w <= now % U32 then t !in s'.sleepers else Asleep(s', t, w)
  {
    AsleepFacts(s, t);
    hide Inv, CurrentOk, Accounted, Enqueued, TickStep, Stopped, Switched, Requeued, Dozed;
    match e {
      case Tick => TickAsleep(s, s', now, threshold, t, w);
      case Doze(seconds) => DozedAsleep(s, s', Until(now, SleepTicks(seconds)), false, t, w);
      case Nap(ns) => DozedAsleep(s, s', Until(now, NapTicks(ns)), true, t, w);
      case Yield => RequeuedAsleep(s, s', now, t, w);
      case Halt => HaltAsleep(s, s', now, threshold, t, w);
      case Start(x, y) =>
        if !(x in s.q.th || y.tid == 0) { EnqueuedAsleep(s, s.q.(th := s.q.th[x := y]), s', x, now, t, w); }
      case Resume(x) => if Resumable(s.q.th, x) { EnqueuedAsleep(s, s.q, s', x, now, t, w); }
    }
  }

  /** A thread that begins to sleep sleeps until the tick computed. */
  lemma Dozes(s: Sys, s': Sys, wake: nat, block: bool)
    requires Good(s) && Dozed(s, s', wake, block) && s.q.th[s.current].tid != 0
    ensures Asleep(s', s.current, wake)
  {
    hide Linked, ReadyOk, History, SleepOk, Switched, Accounted, Quantum;
    var t := s.current;
    var s1, k :| Lulls(s, s1, k, wake, block) && Switched(s1, s');
    InsertedSize(s.sleepers, k, t);
    assert s.idle != t && (k > 0 ==> s.sleepers[k - 1] != t);
    SwitchedAsleep(s1, s', t, wake);
  }

  /** Over a run, a thread that sleeps until tick `w` is asleep up to the first tick at which that has
      come, and no longer. */
  lemma {:induction false} SleepsOn(trace: seq<Sys>, es: seq<Event>, start: nat, threshold: nat, t: nat, w: nat,
    i: nat, n: nat)
    requires IsRun(trace, es, start, threshold) && (forall k :: 0 <= k < |trace| ==> Good(trace[k])) && i <= n <= |es|
    requires Asleep(trace[i], t, w)
    requires forall k :: i <= k < n ==> !(es[k].Tick? && w <= Clock(start, es, k + 1) % U32)
    ensures Asleep(trace[n], t, w)
    decreases n
  {
    hide Good, Step, Asleep;
    if n > i {
      SleepsOn(trace, es, start, threshold, t, w, i, n - 1);
      StepAsleep(trace[n - 1], es[n - 1], trace[n], Clock(start, es, n), threshold, t, w);
    }
  }

  lemma {:induction false} ClockMono(start: nat, es: seq<Event>, i: nat, n: nat)
    requires i <= n <= |es|
    ensures Clock(start, es, i) <= Clock(start, es, n)
    decreases n
  {
    if i < n { ClockMono(start, es, i, n - 1); }
  }

  /** A thread that goes to sleep for `ticks` at event `i` is asleep after every event before the tick
      that ends the sleep, and is woken by that tick; a sleep that is in time lasts as long as asked. */
  lemma SleepsAsLong(trace: seq<Sys>, es: seq<Event>, start: nat, threshold: nat, ticks: nat, block: bool, i: nat,
    n: nat)
    requires IsRun(trace, es, start, threshold) && (forall k :: 0 <= k < |trace| ==> Good(trace[k])) && i < n < |es|
    requires trace[i].current in trace[i].q.th && trace[i].q.th[trace[i].current].tid != 0 && !es[i].Tick?
    requires Dozed(trace[i], trace[i + 1], Until(Clock(start, es, i), ticks), block)
    requires InTime(Clock(start, es, i), ticks)
    requires es[n].Tick? && Clock(start, es, n + 1) == Clock(start, es, i) + Wanted(ticks)
    ensures forall m :: i < m <= n ==> trace[i].current in trace[m].sleepers
    ensures trace[i].current !in trace[n + 1].sleepers
  {
    hide Step, Inv, Accounted, Dozed, Until, Asleep;
    var now, t := Clock(start, es, i), trace[i].current;
    var w := Until(now, ticks);
    assert Good(trace[i]);
    SleepLength(now, ticks);
    Dozes(trace[i], trace[i + 1], w, block);
    forall m | i < m <= n ensures Asleep(trace[m], t, w) {
      forall k | i + 1 <= k < m
        ensures !(es[k].Tick? && w <= Clock(start, es, k + 1) % U32) { NotYet(start, es, i, n, k, now, ticks); }
      SleepsOn(trace, es, start, threshold, t, w, i + 1, m);
    }
    assert forall m :: i < m <= n ==> t in trace[m].sleepers by { AllAsleep(trace, t, w, i, n); }
    assert Good(trace[n]);
    StepAsleep(trace[n], es[n], trace[n + 1], Clock(start, es, n + 1), threshold, t, w);
  }

  lemma AllAsleep(trace: seq<Sys>, t: nat, w: nat, i: nat, n: nat)
    requires n < |trace| && forall m :: i < m <= n ==> Asleep(trace[m], t, w)
    ensures forall m :: i < m <= n ==> t in trace[m].sleepers
  {
  }

  lemma NotYet(start: nat, es: seq<Event>, i: nat, n: nat, k: nat, now: nat, ticks: nat)
    requires i + 1 <= k < n < |es| && now == Clock(start, es, i) && Lasts(now, ticks, Wanted(ticks))
    requires es[n].Tick? && Clock(start, es, n + 1) == now + Wanted(ticks)
    ensures !(es[k].Tick? && Until(now, ticks) <= Clock(start, es, k + 1) % U32)
  {
    if es[k].Tick? {
      ClockMono(start, es, i, k);
      ClockMono(start, es, k + 1, n);
    }
  }
}
