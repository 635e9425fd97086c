/** Aging does not come too soon: a ready thread keeps its level until it has waited for the threshold. */
module SchedWait {
  import opened Common
  import opened SchedQueues
  import opened Sched
  import opened SchedState
  import opened SchedOps
  import opened SchedRun
  import opened SchedBurst
  import opened SchedFair
  import SchedSleep

  /** If thread `t` is ready, its waiting time counts from tick `w`, or from `now` if it is `moved`. */
  ghost predicate Dated(s: Sys, t: nat, w: nat, now: nat, moved: bool) {
    t in s.q.seat ==> t in s.q.th && (s.q.th[t].last == w || (moved && s.q.th[t].last == now % U32))
  }

  lemma BareLast(x: Thread)
    ensures Bare(x).last == x.last
  {
  }

  lemma EnqueuedDated(q: Queues, s: Sys, s': Sys, x: nat, now: nat, t: nat, w: nat, moved: bool)
    requires Dated(s.(q := q), t, w, now, moved) && Enqueued(q, s'.q, x, now) && s' == s.(q := s'.q)
    requires x == t ==> w == now % U32
    ensures Dated(s', t, w, now, moved)
  {
    hide Quantum;
    if t in s'.q.seat { BareLast(s'.q.th[t]); }
  }

  lemma WokenDated(s: Sys, s': Sys, k: nat, now: nat, t: nat, w: nat)
    requires Dated(s, t, w, now, false) && Woken(s, s', k, now) && ReadyOk(s.q)
    requires SleepOk(s.q.th, s.sleepHead, s.sleepers)
    requires t in s.sleepers ==> w == now % U32
    ensures Dated(s', t, w, now, false)
  {
    hide Bound, Quantum;
    if t in s'.q.seat {
      assert t in s.q.th by { if t in s.q.seat { assert ReadyAt(s.q, t); } }
      BareLast(s'.q.th[t]);
    }
  }

  lemma AgedDated(s: Sys, s': Sys, now: nat, threshold: nat, t: nat, w: nat)
    requires Dated(s, t, w, now, false) && AgedStep(s, s', now, threshold)
    ensures Dated(s', t, w, now, now % U32 % 100 == 0 && t in s.q.th && Due(s.q.th[t], now, threshold))
  {
    hide AgedUpTo, Due;
    if now % U32 % 100 == 0 && t in s'.q.seat {
      assert t in s.q.seat && t in s.q.th;
      assert RisenAt(s.q, s'.q, Rises(s.q, LEVELS - 1, now, threshold, t), now, t);
      BareLast(s'.q.th[t]);
    }
  }

  lemma SwitchedDated(s: Sys, s': Sys, t: nat, w: nat, now: nat, moved: bool)
    requires Switched(s, s') && Dated(s, t, w, now, moved)
    ensures Dated(s', t, w, now, moved)
  {
    hide Prepared, Quantum;
    if t in s'.q.seat && !(forall p :: 0 <= p < LEVELS ==> s.q.queues[p] == []) {
      var p, s1, x :| Picked(s, s1, p, x) && s' == RunAs(s1, x);
      assert t in s1.q.seat && t != x && Bare(s1.q.th[t]) == Bare(s.q.th[t]);
      BareLast(s1.q.th[t]);
    }
  }

  lemma RequeuedDated(s: Sys, s': Sys, now: nat, t: nat, w: nat, moved: bool)
    requires Requeued(s, s', now) && Dated(s, t, w, now, moved) && (t == s.current ==> w == now % U32)
    ensures Dated(s', t, w, now, moved)
  {
    hide Switched, Enqueued, Dated;
    if s.q.th[s.current].tid == 0 {
      SwitchedDated(s, s', t, w, now, moved);
    } else {
      var q :| Enqueued(s.q, q, s.current, now) && Switched(s.(q := q), s');
      EnqueuedDated(s.q, s, s.(q := q), s.current, now, t, w, moved) by { assert s.(q := s.q) == s; }
      SwitchedDated(s.(q := q), s', t, w, now, moved);
    }
  }

  lemma UsedDated(s: Sys, t: nat, w: nat, now: nat, moved: bool)
    requires Dated(s, t, w, now, moved)
    ensures Dated(Used(s), t, w, now, moved)
  {
  }

  lemma TickedDated(s: Sys, s': Sys, now: nat, t: nat, w: nat, moved: bool)
    requires Ticked(s, s', now) && Dated(s, t, w, now, moved) && (t == s.current ==> w == now % U32)
    ensures Dated(s', t, w, now, moved)
  {
    hide Requeued, Remaining, Dated;
    UsedDated(s, t, w, now, moved);
    var x := s.q.th[s.current];
    if x.state == Running && Remaining(x.quantum, (x.passed + 1) % U32) <= 0 {
      RequeuedDated(Used(s), s', now, t, w, moved);
    }
  }

  lemma LullsDated(s: Sys, s': Sys, k: nat, wake: nat, block: bool, t: nat, w: nat, now: nat)
    requires Lulls(s, s', k, wake, block) && Dated(s, t, w, now, false)
    ensures Dated(s', t, w, now, false)
  {
    hide PlaceFor, Inserted;
  }

  lemma StoppedDated(s: Sys, s': Sys, t: nat, w: nat, now: nat)
    requires Stopped(s, s') && Dated(s, t, w, now, false)
    ensures Dated(s', t, w, now, false)
  {
    if t in s'.q.seat && s' != s { BareLast(s'.q.th[t]); }
  }

  /** From when a thread that is ready after an event has been waiting: since it was queued, which may
      be now. */
  ghost function Since(s: Sys, t: nat, now: nat): nat {
    if t in s.q.seat && t in s.q.th then s.q.th[t].last else now % U32
  }

  lemma TickDated(s: Sys, s': Sys, now: nat, threshold: nat, t: nat)
    requires Good(s) && Step(s, Tick, s', now, threshold)
    ensures Dated(s', t, Since(s, t, now), now, Eligible(s, Tick, now, threshold, t))
  {
    var w := Since(s, t, now);
    ReadyFacts(s, t);
    hide Linked, History, Idle, Quantum, Accounted, Woken, WakesOnly, AgedStep, Ticked, Due;
    var s1, s2, k :| TickStep(s, s1, s2, s', k, now, threshold);
    assert s1.current == s.current by { WokenDispatched(s, s1, k, now); }
    assert s2.current == s1.current by { AgedCurrent(s1, s2, now, threshold); }
    WokenDated(s, s1, k, now, t, w);
    AgedDated(s1, s2, now, threshold, t, w);
    var moved := now % U32 % 100 == 0 && t in s1.q.th && Due(s1.q.th[t], now, threshold);
    TickedDated(s2, s', now, t, w, moved);
    if t in s.q.seat {
      assert t in s1.q.th && s1.q.th[t].last == s.q.th[t].last by { WokenLast(s, s1, k, now, t); }
      SameDue(s.q.th[t], s1.q.th[t], now, threshold);
    }
  }

  lemma WokenLast(s: Sys, s': Sys, k: nat, now: nat, t: nat)
    requires Woken(s, s', k, now) && t in s.q.th && t !in s.sleepers
    ensures t in s'.q.th && s'.q.th[t].last == s.q.th[t].last
  {
    hide Bound, Quantum;
    assert t !in s.sleepers[..k];
    BareLast(s'.q.th[t]);
  }

  lemma SameDue(x: Thread, y: Thread, now: nat, threshold: nat)
    requires x.last == y.last
    ensures Due(x, now, threshold) <==> Due(y, now, threshold)
  {
  }

  lemma AgedCurrent(s: Sys, s': Sys, now: nat, threshold: nat)
    requires AgedStep(s, s', now, threshold)
    ensures s'.current == s.current
  {
  }

  lemma ReadyFacts(s: Sys, t: nat)
    requires Good(s)
    ensures t in s.q.seat ==> t in s.q.th && t !in s.sleepers && t != s.current
  {
    hide Linked, SleepOk, History, Quantum, Accounted;
    if t in s.q.seat { assert ReadyAt(s.q, t); }
  }

  lemma DozedDated(s: Sys, s': Sys, wake: nat, block: bool, t: nat, w: nat, now: nat)
    requires Dozed(s, s', wake, block) && Dated(s, t, w, now, false)
    ensures Dated(s', t, w, now, false)
  {
    hide Switched, Lulls, Dated;
    if s.q.th[s.current].tid != 0 {
      var s1, k :| Lulls(s, s1, k, wake, block) && Switched(s1, s');
      LullsDated(s, s1, k, wake, block, t, w, now);
      SwitchedDated(s1, s', t, w, now, false);
    }
  }

  lemma HaltDated(s: Sys, s': Sys, now: nat, threshold: nat, t: nat, w: nat)
    requires Step(s, Halt, s', now, threshold) && Dated(s, t, w, now, false)
    ensures Dated(s', t, w, now, false)
  {
    hide Switched, Stopped, Dated;
    var s1 :| Stopped(s, s1) && Switched(s1, s');
    StoppedDated(s, s1, t, w, now);
    SwitchedDated(s1, s', t, w, now, false);
  }

  /** A thread that is ready after an event has been waiting since it was queued; only an aging pass it
      is eligible for, and being queued, sets its waiting time anew. */
  lemma StepDated(s: Sys, e: Event, s': Sys, now: nat, threshold: nat, t: nat)
    requires Good(s) && Step(s, e, s', now, threshold)
    ensures Dated(s', t, Since(s, t, now), now, Eligible(s, e, now, threshold, t))
  {
    hide Inv, Accounted, CurrentOk, Enqueued, TickStep, Stopped, Switched, Requeued, Dozed, Due;
    ReadyFacts(s, t);
    var w := Since(s, t, now);
    match e {
      case Tick => TickDated(s, s', now, threshold, t);
      case Doze(seconds) => DozedDated(s, s', Until(now, SleepTicks(seconds)), false, t, w, now);
      case Nap(ns) => DozedDated(s, s', Until(now, NapTicks(ns)), true, t, w, now);
      case Yield => RequeuedDated(s, s', now, t, w, false);
      case Halt => HaltDated(s, s', now, threshold, t, w);
      case Start(x, y) =>
        if !(x in s.q.th || y.tid == 0) { EnqueuedDated(s.q.(th := s.q.th[x := y]), s, s', x, now, t, w, false); }
      case Resume(x) =>
        if Resumable(s.q.th, x) {
          NotQueued(s, x);
          EnqueuedDated(s.q, s, s', x, now, t, w, false) by { assert s.(q := s.q) == s; }
        }
    }
  }

  lemma NotQueued(s: Sys, x: nat)
    requires Good(s) && Resumable(s.q.th, x)
    ensures x !in s.q.seat
  {
    hide Inv;
    ResumableNowhere(s, x);
  }

  /** Over any run: a thread that is queued at event `i` and stays ready keeps its level as long as fewer
      ticks than the threshold have passed. */
  lemma {:induction false} NotTooSoon(trace: seq<Sys>, es: seq<Event>, start: nat, threshold: nat, p: nat, t: nat,
    i: nat, n: nat)
    requires IsRun(trace, es, start, threshold) && AllGood(trace) && i < n <= |es|
    requires t !in trace[i].q.seat && (forall k :: i < k <= n ==> t in trace[k].q.seat) && At(trace[i + 1], p, t)
    requires Clock(start, es, n) < Clock(start, es, i + 1) + threshold && threshold <= U32
    ensures Clock(start, es, i + 1) <= Clock(start, es, n)
    ensures At(trace[n], p, t) && t in trace[n].q.th && trace[n].q.th[t].last == Clock(start, es, i + 1) % U32
    decreases n
  {
    hide Good, Step, At, Eligible;
    var now, from := Clock(start, es, n), Clock(start, es, i + 1);
    if n == i + 1 {
      StepDated(trace[i], es[i], trace[n], now, threshold, t);
    } else {
      NotTooSoon(trace, es, start, threshold, p, t, i, n - 1);
      var s := trace[n - 1];
      assert !Eligible(s, es[n - 1], now, threshold, t) by { NotDue(s, es[n - 1], now, from, threshold, t); }
      StepDated(s, es[n - 1], trace[n], now, threshold, t);
      StepAt(s, es[n - 1], trace[n], now, threshold, p, t);
      ReadyFacts(trace[n], t);
    }
  }

  lemma NotDue(s: Sys, e: Event, now: nat, from: nat, threshold: nat, t: nat)
    requires t in s.q.th && s.q.th[t].last == from % U32 && from <= now < from + threshold && threshold <= U32
    ensures !Eligible(s, e, now, threshold, t)
  {
    assert (now - from % U32) % U32 == now - from by { Apart(now, from); }
  }

  lemma Apart(now: nat, from: nat)
    requires from <= now < from + U32
    ensures (now - from % U32) % U32 == now - from
  {
    var k := from / U32;
    assert now - from % U32 == now - from + U32 * k;
    SchedSleep.Round(now - from, k);
  }
}
