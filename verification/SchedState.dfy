/** What holds of the whole scheduler between its steps. */
module SchedState {
  import opened Common
  import opened SchedQueues
  import opened Sched

  datatype Sys = Sys(q: Queues, sleepHead: int, sleepers: seq<nat>, current: nat, idle: nat, dispatched: map<nat, nat>)

  /** A queued thread is ready, is not an idle task, and is on the queue of its own priority. */
  ghost predicate ReadyAt(q: Queues, t: nat) {
    t in q.seat && t in q.th && q.th[t].tid != 0 && q.th[t].state == Ready && q.seat[t] == Level(q.th[t].priority)
  }

  ghost predicate ReadyOk(q: Queues) {
    forall t :: t in q.seat ==> ReadyAt(q, t)
  }

  /** The sleeper list from `head` is `s`, sorted by wakeup time. */
  ghost predicate SleepOk(th: Threads, head: int, s: seq<nat>) {
    && head == Ptr(s, 0) && Distinct(s)
    && (forall k :: 0 <= k < |s| ==> s[k] in th && th[s[k]].nextSleep == Ptr(s, k + 1) && th[s[k]].tid != 0)
    && (forall i, j :: 0 <= i < j < |s| ==> th[s[i]].wakeup <= th[s[j]].wakeup)
  }

  /** No thread is both ready and asleep. */
  ghost predicate ApartOk(q: Queues, sleepers: seq<nat>) {
    forall t :: t in sleepers ==> t !in q.seat
  }

  /** What the last dispatch at priority `d` still determines: the ticks used since do not exceed
      that slice, and the estimate of a ready thread is that slice. */
  ghost predicate HistoryOk(x: Thread, d: nat, ready: bool) {
    && d < LEVELS && x.tid != 0 && x.passed <= Quantum(d)
    && if ready then x.estimate == Quantum(d) && 0 <= x.priority <= d else x.priority == d
  }

  ghost predicate History(q: Queues, dispatched: map<nat, nat>) {
    forall t :: t in dispatched ==> t in q.th && HistoryOk(q.th[t], dispatched[t], t in q.seat)
  }

  ghost predicate Idle(q: Queues, idle: nat, sleepers: seq<nat>) {
    idle in q.th && q.th[idle].tid == 0 && idle !in q.seat && idle !in sleepers
  }

  /** Everything that does not concern the running thread. */
  ghost predicate Inv(s: Sys) {
    && Linked(s.q) && ReadyOk(s.q) && SleepOk(s.q.th, s.sleepHead, s.sleepers) && ApartOk(s.q, s.sleepers)
    && History(s.q, s.dispatched) && Idle(s.q, s.idle, s.sleepers)
  }

  /** The running thread is neither ready nor asleep and has part of its slice left. */
  ghost predicate CurrentOk(s: Sys) {
    && s.current in s.q.th && s.current !in s.q.seat && s.current !in s.sleepers && s.q.th[s.current].state == Running
    && (s.q.th[s.current].tid != 0 ==>
          && s.current in s.dispatched && s.q.th[s.current].quantum == Quantum(s.dispatched[s.current])
          && s.q.th[s.current].passed < s.q.th[s.current].quantum)
  }

  /** A thread as sched_enqueue leaves it. */
  function Queued(x: Thread, now: nat): Thread {
    var n := Quantum(Level(x.priority));
    x.(state := Ready, next := NONE, quantum := n, estimate := n, last := now % U32)
  }

  /** Thread `t` was put at the back of its queue; others changed at most in their queue links. */
  ghost predicate Enqueued(q: Queues, q': Queues, t: nat, now: nat) {
    && t in q.th && |q.queues| == LEVELS && q'.th.Keys == q.th.Keys
    && (forall x :: x in q.th ==> Bare(q'.th[x]) == if x == t then Bare(Queued(q.th[t], now)) else Bare(q.th[x]))
    && var p := Level(q.th[t].priority); q'.queues == q.queues[p := q.queues[p] + [t]] && q'.seat == q.seat[t := p]
  }

  lemma EnqueuedReady(q: Queues, q': Queues, t: nat, now: nat)
    requires ReadyOk(q) && Enqueued(q, q', t, now) && q.th[t].tid != 0
    ensures ReadyOk(q')
  {
    hide Level;
    forall x | x in q'.seat ensures ReadyAt(q', x) {
      if x != t { assert ReadyAt(q, x); }
      assert x in q.th;
      assert Bare(q'.th[x]).tid == q'.th[x].tid && Bare(q'.th[x]).state == q'.th[x].state
        && Bare(q'.th[x]).priority == q'.th[x].priority;
    }
  }

  /** The sleeper list depends on its own links and times only. */
  lemma SleepSame(th: Threads, th': Threads, head: int, s: seq<nat>)
    requires SleepOk(th, head, s)
    requires forall t :: t in s && t in th ==>
      t in th' && th'[t].nextSleep == th[t].nextSleep && th'[t].wakeup == th[t].wakeup && th'[t].tid == th[t].tid
    ensures SleepOk(th', head, s)
  {
    hide Distinct;
    forall k | 0 <= k < |s| ensures s[k] in th' && th'[s[k]].nextSleep == th[s[k]].nextSleep
      && th'[s[k]].wakeup == th[s[k]].wakeup && th'[s[k]].tid == th[s[k]].tid {
      assert s[k] in s;
    }
  }

  lemma EnqueuedHistory(q: Queues, q': Queues, dispatched: map<nat, nat>, t: nat, now: nat)
    requires History(q, dispatched) && Enqueued(q, q', t, now) && t !in q.seat
    ensures History(q', dispatched)
  {
    hide Quantum;
    forall x | x in dispatched ensures x in q'.th && HistoryOk(q'.th[x], dispatched[x], x in q'.seat) {
      var y, y' := q.th[x], q'.th[x];
      assert Bare(y').tid == y'.tid && Bare(y').passed == y'.passed && Bare(y').estimate == y'.estimate
        && Bare(y').priority == y'.priority;
      assert HistoryOk(y, dispatched[x], x in q.seat);
    }
  }

  /** Putting a thread at the back of its queue. */
  lemma EnqueuedInv(s: Sys, q': Queues, t: nat, now: nat)
    requires Inv(s) && Linked(q') && Enqueued(s.q, q', t, now) && s.q.th[t].tid != 0 && t !in s.q.seat
    requires t !in s.sleepers
    ensures Inv(s.(q := q'))
  {
    hide Linked, ReadyOk, History, SleepOk, Enqueued;
    EnqueuedReady(s.q, q', t, now);
    EnqueuedHistory(s.q, q', s.dispatched, t, now);
    EnqueuedRest(s.q, q', s.sleepHead, s.sleepers, s.idle, t, now);
  }

  lemma EnqueuedRest(q: Queues, q': Queues, head: int, sleepers: seq<nat>, idle: nat, t: nat, now: nat)
    requires Enqueued(q, q', t, now) && SleepOk(q.th, head, sleepers) && ApartOk(q, sleepers) && t !in sleepers
    requires Idle(q, idle, sleepers) && q.th[t].tid != 0
    ensures SleepOk(q'.th, head, sleepers) && ApartOk(q', sleepers) && Idle(q', idle, sleepers)
  {
    hide SleepOk, Level;
    forall x | x in q.th && x != t
      ensures x in q'.th && q'.th[x].nextSleep == q.th[x].nextSleep && q'.th[x].wakeup == q.th[x].wakeup
      ensures q'.th[x].tid == q.th[x].tid
    {
      assert Bare(q'.th[x]) == Bare(q.th[x]);
    }
    SleepSame(q.th, q'.th, head, sleepers);
  }

  /** Threads that are not queued keep all fields that matter outside the queues. */
  ghost predicate RestSame(q: Queues, q': Queues) {
    && q'.th.Keys == q.th.Keys && q'.seat.Keys == q.seat.Keys
    && (forall t :: t in q.th ==>
          && q'.th[t].tid == q.th[t].tid && q'.th[t].nextSleep == q.th[t].nextSleep && q'.th[t].wakeup == q.th[t].wakeup
          && (t !in q.seat ==> Bare(q'.th[t]) == Bare(q.th[t])))
  }

  lemma RisenRest(q: Queues, q': Queues, now: nat, threshold: nat)
    requires Risen(q, q', LEVELS - 1, now, threshold)
    ensures RestSame(q, q')
  {
    hide Due;
    forall t | t in q.th
      ensures q'.th[t].tid == q.th[t].tid && q'.th[t].nextSleep == q.th[t].nextSleep
      ensures q'.th[t].wakeup == q.th[t].wakeup
      ensures t !in q.seat ==> Bare(q'.th[t]) == Bare(q.th[t])
    {
      assert RisenAt(q, q', Rises(q, LEVELS - 1, now, threshold, t), now, t);
      assert Bare(q'.th[t]).tid == q'.th[t].tid && Bare(q'.th[t]).nextSleep == q'.th[t].nextSleep
        && Bare(q'.th[t]).wakeup == q'.th[t].wakeup;
    }
  }

  lemma RisenReady(q: Queues, q': Queues, now: nat, threshold: nat)
    requires ReadyOk(q) && Risen(q, q', LEVELS - 1, now, threshold)
    ensures ReadyOk(q')
  {
    hide Due;
    forall t | t in q'.seat ensures ReadyAt(q', t) {
      assert ReadyAt(q, t);
      assert RisenAt(q, q', Rises(q, LEVELS - 1, now, threshold, t), now, t);
      var y := q'.th[t];
      assert Bare(y).tid == y.tid && Bare(y).state == y.state && Bare(y).priority == y.priority;
    }
  }

  lemma RisenHistory(q: Queues, q': Queues, dispatched: map<nat, nat>, now: nat, threshold: nat)
    requires ReadyOk(q) && History(q, dispatched) && Risen(q, q', LEVELS - 1, now, threshold)
    ensures History(q', dispatched)
  {
    hide Due, Quantum;
    forall t | t in dispatched ensures t in q'.th && HistoryOk(q'.th[t], dispatched[t], t in q'.seat) {
      assert HistoryOk(q.th[t], dispatched[t], t in q.seat);
      assert t in q.seat ==> ReadyAt(q, t);
      assert RisenAt(q, q', Rises(q, LEVELS - 1, now, threshold, t), now, t);
      var y := q'.th[t];
      assert Bare(y).tid == y.tid && Bare(y).passed == y.passed && Bare(y).estimate == y.estimate
        && Bare(y).priority == y.priority;
    }
  }

  /** What does not depend on the queued threads' own fields. */
  lemma RestKept(s: Sys, q': Queues)
    requires SleepOk(s.q.th, s.sleepHead, s.sleepers) && ApartOk(s.q, s.sleepers) && Idle(s.q, s.idle, s.sleepers)
    requires RestSame(s.q, q')
    ensures SleepOk(q'.th, s.sleepHead, s.sleepers) && ApartOk(q', s.sleepers) && Idle(q', s.idle, s.sleepers)
    ensures CurrentOk(s) ==> CurrentOk(s.(q := q'))
  {
    hide SleepOk, Quantum;
    SleepSame(s.q.th, q'.th, s.sleepHead, s.sleepers);
    if CurrentOk(s) {
      var y := q'.th[s.current];
      assert Bare(y).state == y.state && Bare(y).quantum == y.quantum && Bare(y).passed == y.passed;
    }
  }

  /** An aging pass. */
  lemma RisenInv(s: Sys, q': Queues, now: nat, threshold: nat)
    requires Inv(s) && Linked(q') && Risen(s.q, q', LEVELS - 1, now, threshold)
    ensures Inv(s.(q := q')) && (CurrentOk(s) ==> CurrentOk(s.(q := q')))
  {
    hide Linked, ReadyOk, History, SleepOk, Risen, RestSame, Idle, ApartOk, CurrentOk;
    RisenRest(s.q, q', now, threshold);
    RisenReady(s.q, q', now, threshold);
    RisenHistory(s.q, q', s.dispatched, now, threshold);
    RestKept(s, q');
  }

  /** A thread as sched_prepare_for_cpu_burst leaves it. */
  function Prepared(x: Thread): Thread {
    var e := (x.passed + x.estimate) / 2;
    var p := LevelFor(e);
    x.(priority := p, estimate := e, quantum := Quantum(p), passed := 0)
  }

  /** Thread `t` left its queue and was prepared to run. */
  ghost predicate Taken(q: Queues, q': Queues, t: nat) {
    && t in q.th && t in q.seat && q'.th.Keys == q.th.Keys && q'.seat == q.seat - {t}
    && (forall x :: x in q.th ==> Bare(q'.th[x]) == if x == t then Prepared(Bare(q.th[t])) else Bare(q.th[x]))
  }

  lemma TakenHistory(q: Queues, q': Queues, dispatched: map<nat, nat>, t: nat)
    requires ReadyOk(q) && History(q, dispatched) && Taken(q, q', t)
    ensures 0 <= q'.th[t].priority < LEVELS && History(q', dispatched[t := q'.th[t].priority])
    ensures t in dispatched ==> q'.th[t].priority <= dispatched[t]
    ensures q'.th[t].passed == 0 && q'.th[t].quantum == Quantum(q'.th[t].priority) && q'.th[t].tid != 0
  {
    assert ReadyAt(q, t);
    var y := q'.th[t];
    assert Bare(y).passed == y.passed && Bare(y).priority == y.priority && Bare(y).quantum == y.quantum
      && Bare(y).tid == y.tid;
    if t in dispatched {
      assert HistoryOk(q.th[t], dispatched[t], true);
      NeverWorse(q.th[t].passed, dispatched[t]);
    }
    hide Quantum, LevelFor;
    var dispatched' := dispatched[t := q'.th[t].priority];
    forall x | x in dispatched' ensures x in q'.th && HistoryOk(q'.th[x], dispatched'[x], x in q'.seat) {
      if x != t {
        assert HistoryOk(q.th[x], dispatched[x], x in q.seat);
        var z := q'.th[x];
        assert Bare(z).tid == z.tid && Bare(z).passed == z.passed && Bare(z).estimate == z.estimate
          && Bare(z).priority == z.priority;
      }
    }
  }

  lemma TakenReady(q: Queues, q': Queues, t: nat)
    requires ReadyOk(q) && Taken(q, q', t)
    ensures ReadyOk(q')
  {
    hide Prepared;
    forall x | x in q'.seat ensures ReadyAt(q', x) {
      assert ReadyAt(q, x) && x != t;
      var y := q'.th[x];
      assert Bare(y).tid == y.tid && Bare(y).state == y.state && Bare(y).priority == y.priority;
    }
  }

  lemma TakenRest(q: Queues, q': Queues, head: int, sleepers: seq<nat>, idle: nat, t: nat)
    requires Taken(q, q', t) && SleepOk(q.th, head, sleepers) && ApartOk(q, sleepers) && Idle(q, idle, sleepers)
    ensures SleepOk(q'.th, head, sleepers) && ApartOk(q', sleepers) && Idle(q', idle, sleepers) && t !in sleepers
  {
    hide SleepOk, Prepared;
    forall x | x in q.th && x != t
      ensures x in q'.th && q'.th[x].nextSleep == q.th[x].nextSleep && q'.th[x].wakeup == q.th[x].wakeup
      ensures q'.th[x].tid == q.th[x].tid
    {
      assert Bare(q'.th[x]) == Bare(q.th[x]);
    }
    SleepSame(q.th, q'.th, head, sleepers);
  }

  /** Taking a thread to run: its priority is never worse than when it last ran. */
  lemma TakenInv(s: Sys, q': Queues, t: nat)
    requires Inv(s) && Linked(q') && Taken(s.q, q', t)
    ensures 0 <= q'.th[t].priority < LEVELS && (t in s.dispatched ==> q'.th[t].priority <= s.dispatched[t])
    ensures Inv(s.(q := q', dispatched := s.dispatched[t := q'.th[t].priority])) && t !in s.sleepers
    ensures q'.th[t].passed == 0 && q'.th[t].quantum == Quantum(q'.th[t].priority) && q'.th[t].tid != 0
  {
    hide Linked, ReadyOk, History, SleepOk, Taken, Idle, ApartOk, Quantum;
    TakenHistory(s.q, q', s.dispatched, t);
    TakenReady(s.q, q', t);
    TakenRest(s.q, q', s.sleepHead, s.sleepers, s.idle, t);
  }
}
