/** The operations of the scheduler. */
module SchedOps {
  import opened Common
  import opened SchedQueues
  import opened Sched
  import opened SchedState

  ghost function S(sc: Scheduler): Sys
    reads sc
  {
    Sys(sc.Q(), sc.sleepHead, sc.sleepers, sc.current, sc.idle, sc.dispatched)
  }

  /** Changing fields of one thread that is on no queue, or of any thread but for its link. */
  lemma OneField(q: Queues, t: nat, x: Thread)
    requires Linked(q) && t in q.th && (t in q.seat ==> x.next == q.th[t].next)
    ensures Linked(q.(th := q.th[t := x]))
  {
    hide Linked;
    FieldsFree(q, q.th[t := x]);
  }

  /** sched_enqueue: to the back of the queue of its priority, with a fresh slice; idle tasks are
      never queued. */
  method Enqueue(sc: Scheduler, t: nat, now: nat)
    requires Inv(S(sc)) && t in sc.th && (sc.th[t].tid != 0 ==> t !in sc.seat && t !in sc.sleepers)
    modifies sc`th, sc`heads, sc`tails, sc`queues, sc`seat
    ensures Inv(S(sc))
    ensures if old(sc.th)[t].tid == 0 then S(sc) == old(S(sc)) else Enqueued(old(sc.Q()), sc.Q(), t, now)
  {
    if sc.th[t].tid == 0 { return; }
    hide Linked, ReadyOk, History, SleepOk, Idle, ApartOk, Enqueued;
    ghost var s0 := S(sc);
    Stamp(sc, t, now);
    EnqueuedInv(s0, sc.Q(), t, now);
  }

  /** The steps of sched_enqueue under its lock. */
  method Stamp(sc: Scheduler, t: nat, now: nat)
    requires Linked(sc.Q()) && t in sc.th && t !in sc.seat
    modifies sc`th, sc`heads, sc`tails, sc`queues, sc`seat
    ensures Linked(sc.Q()) && Enqueued(old(sc.Q()), sc.Q(), t, now)
  {
    hide Linked, Appended, Quantum, SameBare, Enqueued;
    var p := sc.th[t].priority;
    if p < 0 || p >= LEVELS { p := MEDIUM; }
    ghost var q0 := sc.Q();
    LinkedSized(q0);
    OneField(q0, t, sc.th[t].(state := Ready, next := NONE));
    sc.th := sc.th[t := sc.th[t].(state := Ready, next := NONE)];
    ghost var q1 := sc.Q();
    TailIn(q1, p);
    sc.Enter(p, t);
    AppendedFacts(q1, p, t);
    ghost var q2 := sc.Q();
    assert t in q2.th by { BareKeys(q1.th, q2.th); }
    Restart(sc, t, p, now);
    EnqueuedSteps(q0, q1, q2, sc.Q(), t, now, p);
  }

  lemma BareKeys(th: Threads, th': Threads)
    requires SameBare(th, th')
    ensures th'.Keys == th.Keys
  {
  }

  /** A fresh slice. */
  method Restart(sc: Scheduler, t: nat, p: nat, now: nat)
    requires Linked(sc.Q()) && t in sc.th
    modifies sc`th
    ensures Linked(sc.Q())
    ensures sc.th == old(sc.th)[t := old(sc.th)[t].(quantum := Quantum(p), estimate := Quantum(p), last := now % U32)]
  {
    hide Linked, Quantum;
    OneField(sc.Q(), t, sc.th[t].(quantum := Quantum(p), estimate := Quantum(p), last := now % U32));
    sc.th := sc.th[t := sc.th[t].(quantum := Quantum(p), estimate := Quantum(p), last := now % U32)];
  }

  lemma EnqueuedSteps(q0: Queues, q1: Queues, q2: Queues, q3: Queues, t: nat, now: nat, p: nat)
    requires t in q0.th && |q0.queues| == LEVELS && p == Level(q0.th[t].priority)
    requires q1 == q0.(th := q0.th[t := q0.th[t].(state := Ready, next := NONE)])
    requires SameBare(q1.th, q2.th) && q2.queues == q1.queues[p := q1.queues[p] + [t]] && q2.seat == q1.seat[t := p]
    requires t in q2.th
    requires q3 == q2.(th := q2.th[t := q2.th[t].(quantum := Quantum(p), estimate := Quantum(p), last := now % U32)])
    ensures Enqueued(q0, q3, t, now)
  {
    hide Quantum;
    forall x | x in q0.th ensures Bare(q3.th[x]) == if x == t then Bare(Queued(q0.th[t], now)) else Bare(q0.th[x]) {
      assert Bare(q2.th[x]) == Bare(q1.th[x]);
    }
  }

  /** sched_enqueue does not ask whether the thread is queued already. If it is, its queue is no list
      any more or has lost everybody behind it: a queue survives exactly for a thread that is not
      queued. */
  lemma EnqueueTwice(q: Queues, p: nat, k: nat, s: seq<nat>)
    requires Linked(q) && p < LEVELS == |q.heads| == |q.tails| == |q.queues| && k < |q.queues[p]|
    requires q.queues[p][k] in q.th
    requires q.tails[p] >= 0 ==> q.tails[p] in q.th
    requires var q' := Appended(q, p, q.queues[p][k]); Chain(q'.th, q'.heads[p], q'.tails[p], s)
    ensures k + 1 < |q.queues[p]| && s == q.queues[p][..k + 1]
  {
    assert Chain(q.th, q.heads[p], q.tails[p], q.queues[p]);
    hide Linked;
    var c: seq<nat>, q' := q.queues[p], Appended(q, p, q.queues[p][k]);
    forall i | 0 <= i < k ensures NextOf(q'.th, c[i]) == NextOf(q.th, c[i]) { assert c[i] != c[k]; }
    assert NextOf(q'.th, c[k]) == if k + 1 == |c| then c[k] else NONE;
    hide Appended, NextOf;
    SamePrefix(q.th, q'.th, q.heads[p], q.tails[p], q'.tails[p], c, s, k);
    assert NextOf(q'.th, s[k]) == Ptr(s, k + 1);
  }

  /** Two lists from the same head agree as far as the links do. */
  lemma {:induction false} SamePrefix(th: Threads, th': Threads, head: int, tail: int, tail': int, c: seq<nat>,
    s: seq<nat>, k: nat)
    requires Chain(th, head, tail, c) && Chain(th', head, tail', s) && k < |c|
    requires forall i :: 0 <= i < k ==> NextOf(th', c[i]) == NextOf(th, c[i])
    ensures k < |s| && s[..k + 1] == c[..k + 1] && s[k] == c[k]
  {
    hide Distinct, NextOf;
    if k > 0 {
      SamePrefix(th, th', head, tail, tail', c, s, k - 1);
      assert NextOf(th', s[k - 1]) == Ptr(s, k) && NextOf(th, c[k - 1]) == Ptr(c, k);
      assert s[..k + 1] == s[..k] + [s[k]] && c[..k + 1] == c[..k] + [c[k]];
    }
  }

  /** The loop of sched_prepare_for_cpu_burst that classifies an estimate. */
  method Classify(estimate: nat) returns (p: nat)
    ensures p == LevelFor(estimate)
  {
    p := 0;
    while p < LEVELS
      invariant 0 <= p <= LEVELS && forall r :: 0 <= r < p ==> estimate > Quantum(r)
    {
      if estimate <= Quantum(p) {
        LevelIs(estimate, p);
        return;
      }
      p := p + 1;
    }
    p := LEVELS - 1;
    LevelIs(estimate, p);
  }

  lemma LevelIs(estimate: nat, p: nat)
    requires p < LEVELS && (forall r :: 0 <= r < p ==> estimate > Quantum(r))
    requires (estimate <= Quantum(p) || p == LEVELS - 1)
    ensures p == LevelFor(estimate)
  {
    assert 0 < p ==> estimate > Quantum(0);
    assert 1 < p ==> estimate > Quantum(1);
    assert 2 < p ==> estimate > Quantum(2);
  }

  /** sched_pick_next: the first thread of the highest level that has one, else the idle task. */
  method PickNext(sc: Scheduler) returns (next: nat)
    requires Inv(S(sc))
    modifies sc`th, sc`heads, sc`tails, sc`queues, sc`seat, sc`dispatched
    ensures Inv(S(sc)) && |old(sc.queues)| == LEVELS
    ensures if forall p :: 0 <= p < LEVELS ==> old(sc.queues)[p] == [] then next == sc.idle && S(sc) == old(S(sc))
      else exists p :: Picked(old(S(sc)), S(sc), p, next)
  {
    hide Linked, ReadyOk, History, SleepOk, Idle, ApartOk, Picked;
    ghost var s0 := S(sc);
    LinkedSized(sc.Q());
    var p := 0;
    while p < LEVELS
      invariant 0 <= p <= LEVELS && S(sc) == s0 && forall r :: 0 <= r < p ==> sc.queues[r] == []
    {
      HeadOf(sc.Q(), p);
      if sc.heads[p] != NONE {
        next := Take(sc, p);
        return;
      }
      p := p + 1;
    }
    return sc.idle;
  }

  /** What picking a thread from level `p` did. */
  ghost predicate Picked(s: Sys, s': Sys, p: nat, t: nat) {
    && p < LEVELS == |s.q.queues| && (forall r :: 0 <= r < p ==> s.q.queues[r] == [])
    && s.q.queues[p] != [] && t == s.q.queues[p][0] && s'.q.queues == s.q.queues[p := s.q.queues[p][1..]]
    && Taken(s.q, s'.q, t) && s' == s.(q := s'.q, dispatched := s'.dispatched)
    && 0 <= s'.q.th[t].priority < LEVELS && s'.dispatched == s.dispatched[t := s'.q.th[t].priority]
    && (t in s.dispatched ==> s'.q.th[t].priority <= s.dispatched[t])
    && s'.q.th[t].passed == 0 && s'.q.th[t].quantum == Quantum(s'.q.th[t].priority) && s'.q.th[t].tid != 0
      && t !in s.sleepers
  }

  /** The head of level `p` is removed and prepared. */
  method Take(sc: Scheduler, p: nat) returns (t: nat)
    requires Inv(S(sc)) && p < LEVELS && |sc.queues| == |sc.heads| == LEVELS && sc.heads[p] != NONE
    requires sc.heads[p] == Ptr(sc.queues[p], 0)
    requires forall r :: 0 <= r < p ==> sc.queues[r] == []
    modifies sc`th, sc`heads, sc`tails, sc`queues, sc`seat, sc`dispatched
    ensures Inv(S(sc)) && Picked(old(S(sc)), S(sc), p, t)
  {
    hide Linked, ReadyOk, History, SleepOk, Idle, ApartOk, Removed, Quantum, LevelFor, RemoveAt, Prepared, Taken,
      Distinct;
    ghost var s0, q0 := S(sc), sc.Q();
    LinkedSized(q0);
    t := sc.heads[p];
    PrevIn(q0, p, 0);
    InQueue(q0, p, t);
    sc.Unqueue(p, 0, t, NONE);
    RemovedFacts(q0, p, 0);
    ghost var q1 := sc.Q();
    assert t in q1.th && t !in q1.seat && q1.queues == q0.queues[p := q0.queues[p][1..]] by { TailIs(q0.queues[p]); }
    Prepare(sc, t);
    TakenSteps(q0, q1, sc.Q(), t);
    TakenInv(s0, sc.Q(), t);
    sc.dispatched := sc.dispatched[t := sc.th[t].priority];
  }

  lemma TailIs(s: seq<nat>)
    requires s != []
    ensures RemoveAt(s, 0) == s[1..]
  {
  }

  /** The link is cleared, then sched_prepare_for_cpu_burst. */
  method Prepare(sc: Scheduler, t: nat)
    requires Linked(sc.Q()) && t in sc.th && t !in sc.seat
    modifies sc`th
    ensures Linked(sc.Q()) && sc.th == old(sc.th)[t := Prepared(old(sc.th)[t].(next := NONE))]
  {
    hide Linked, Quantum, LevelFor;
    OneField(sc.Q(), t, sc.th[t].(next := NONE));
    sc.th := sc.th[t := sc.th[t].(next := NONE)];
    var e := (sc.th[t].passed + sc.th[t].estimate) / 2;
    var level := Classify(e);
    OneField(sc.Q(), t, sc.th[t].(priority := level, estimate := e, quantum := Quantum(level), passed := 0));
    sc.th := sc.th[t := sc.th[t].(priority := level, estimate := e, quantum := Quantum(level), passed := 0)];
  }

  lemma TakenSteps(q0: Queues, q1: Queues, q2: Queues, t: nat)
    requires t in q0.th && t in q0.seat && SameBare(q0.th, q1.th) && q1.seat == q0.seat - {t} && t in q1.th
    requires q2 == q1.(th := q1.th[t := Prepared(q1.th[t].(next := NONE))])
    ensures Taken(q0, q2, t)
  {
    hide Quantum, LevelFor;
    forall x | x in q0.th ensures Bare(q2.th[x]) == if x == t then Prepared(Bare(q0.th[t])) else Bare(q0.th[x]) {
      assert Bare(q1.th[x]) == Bare(q0.th[x]);
    }
  }

  /** Fields of a thread on no queue that the invariant does not constrain. */
  lemma FreeFields(s: Sys, t: nat, x: Thread)
    requires Inv(s) && t in s.q.th && t !in s.q.seat
    requires x == s.q.th[t].(state := x.state, passed := x.passed, quantum := x.quantum, next := x.next)
    requires t in s.dispatched ==> x.passed <= Quantum(s.dispatched[t])
    ensures Inv(s.(q := s.q.(th := s.q.th[t := x])))
  {
    assert Linked(s.q.(th := s.q.th[t := x])) by {
      hide Linked, ReadyOk, History, SleepOk, Idle, ApartOk;
      OneField(s.q, t, x);
    }
    assert ReadyOk(s.q.(th := s.q.th[t := x])) by {
      hide Linked, History, SleepOk;
      forall y | y in s.q.seat ensures ReadyAt(s.q.(th := s.q.th[t := x]), y) { assert ReadyAt(s.q, y); }
    }
    assert SleepOk(s.q.th[t := x], s.sleepHead, s.sleepers) by {
      hide Linked, ReadyOk, History, SleepOk;
      SleepSame(s.q.th, s.q.th[t := x], s.sleepHead, s.sleepers);
    }
    hide Linked, ReadyOk, SleepOk, Quantum;
  }

  /** sched_switch_next: the thread picked becomes the running one. */
  method SwitchNext(sc: Scheduler)
    requires Inv(S(sc))
    modifies sc`th, sc`heads, sc`tails, sc`queues, sc`seat, sc`dispatched, sc`current
    ensures Inv(S(sc)) && CurrentOk(S(sc))
    ensures Switched(old(S(sc)), S(sc))
  {
    hide Linked, ReadyOk, History, SleepOk, ApartOk, Taken, Quantum;
    ghost var s0 := S(sc);
    var next := PickNext(sc);
    ghost var s1 := S(sc);
    NextFree(s0, s1, next);
    HistoryBound(s1, next);
    FreeFields(s1, next, sc.th[next].(state := Running));
    sc.th := sc.th[next := sc.th[next].(state := Running)];
    sc.current := next;
    assert Switched(s0, S(sc)) by { assert S(sc) == RunAs(s1, next); }
  }

  ghost function RunAs(s: Sys, t: nat): Sys {
    if t in s.q.th then s.(q := s.q.(th := s.q.th[t := s.q.th[t].(state := Running)]), current := t) else s
  }

  /** What switching did: the first thread of the highest level that has one runs, or the idle
      task if nothing is ready. */
  ghost predicate Switched(s: Sys, s': Sys) {
    && |s.q.queues| == LEVELS
    && if forall p :: 0 <= p < LEVELS ==> s.q.queues[p] == [] then s' == RunAs(s, s.idle)
       else exists p, s1, t :: Picked(s, s1, p, t) && s' == RunAs(s1, t)
  }

  lemma NextFree(s: Sys, s1: Sys, t: nat)
    requires Inv(s) && Inv(s1) && |s.q.queues| == LEVELS
    requires if forall p :: 0 <= p < LEVELS ==> s.q.queues[p] == [] then t == s.idle && s1 == s else exists p ::
      Picked(s, s1, p, t)
    ensures t in s1.q.th && t !in s1.q.seat && t !in s1.sleepers && (t != s1.idle || s1.q.th[t].tid == 0)
    ensures s1.q.th[t].tid != 0 ==>
      t in s1.dispatched && s1.q.th[t].quantum == Quantum(s1.dispatched[t]) && s1.q.th[t].passed < s1.q.th[t].quantum
  {
    hide Linked, ReadyOk, History, SleepOk, ApartOk;
    if !(forall p :: 0 <= p < LEVELS ==> s.q.queues[p] == []) {
      var p :| Picked(s, s1, p, t);
    }
  }

  lemma HistoryBound(s: Sys, t: nat)
    requires Inv(s) && t in s.q.th
    ensures t in s.dispatched ==> s.q.th[t].passed <= Quantum(s.dispatched[t])
  {
    hide Linked, ReadyOk, SleepOk, ApartOk, Quantum;
  }

  /** The first sleeper leaves the list. */
  lemma PopSleeper(s: Sys)
    requires Inv(s) && s.sleepers != []
    ensures s.sleepHead == s.sleepers[0] && s.sleepers[0] in s.q.th && s.sleepers[0] !in s.q.seat
    ensures s.q.th[s.sleepers[0]].tid != 0
    ensures s.q.th[s.sleepers[0]].nextSleep == Ptr(s.sleepers, 1) && s.sleepers[0] !in s.sleepers[1..]
    ensures Inv(Awoken(s))
  {
    hide Linked, ReadyOk, History, SleepOk, ApartOk, Quantum;
    SleepTail(s.q.th, s.sleepHead, s.sleepers);
    var t, s' := s.sleepers[0], Awoken(s);
    assert t in s.sleepers;
    AwokenRest(s, t);
    OneField(s.q, t, s'.q.th[t]);
  }

  lemma AwokenRest(s: Sys, t: nat)
    requires ReadyOk(s.q) && History(s.q, s.dispatched) && ApartOk(s.q, s.sleepers) && Idle(s.q, s.idle, s.sleepers)
    requires t in s.sleepers && t in s.q.th && s.sleepers[0] == t
    ensures t !in s.q.seat
    ensures var s' := Awoken(s);
      ReadyOk(s'.q) && History(s'.q, s'.dispatched) && ApartOk(s'.q, s'.sleepers) && Idle(s'.q, s'.idle, s'.sleepers)
  {
    hide Quantum;
    var s' := Awoken(s);
    forall y | y in s.q.seat ensures ReadyAt(s'.q, y) { assert ReadyAt(s.q, y); }
    assert forall x :: x in s'.sleepers ==> x in s.sleepers;
  }

  ghost function Awoken(s: Sys): Sys
    requires s.sleepers != []
  {
    var t := s.sleepers[0];
    if t in s.q.th then
      s.(sleepHead := Ptr(s.sleepers, 1), sleepers := s.sleepers[1..],
        q := s.q.(th := s.q.th[t := s.q.th[t].(nextSleep := NONE)]))
    else s
  }

  /** The threads of `s` that belong on queue `p`, in order. */
  function Bound(th: Threads, s: seq<nat>, p: nat): seq<nat> {
    if s == [] then []
    else Bound(th, s[..|s| - 1], p) + if s[|s| - 1] in th && Level(th[s[|s| - 1]].priority) == p then [s[|s| - 1]]
      else []
  }

  /** A thread that was woken, or was not concerned. */
  function Afterwards(x: Thread, woken: bool, now: nat): Thread {
    if woken then Bare(Queued(x.(nextSleep := NONE), now)) else Bare(x)
  }

  /** The first `k` sleepers of `s` were woken: they are on the queues of their priorities, in the
      order of their wakeup times, and nobody else moved. */
  ghost predicate Woken(s: Sys, s': Sys, k: nat, now: nat) {
    && k <= |s.sleepers| && s'.sleepers == s.sleepers[k..] && |s.q.queues| == |s'.q.queues| == LEVELS
    && s' == s.(q := s'.q, sleepHead := Ptr(s.sleepers, k), sleepers := s'.sleepers)
    && (forall p :: 0 <= p < LEVELS ==> s'.q.queues[p] == s.q.queues[p] + Bound(s.q.th, s.sleepers[..k], p))
    && s'.q.th.Keys == s.q.th.Keys
    && (forall t :: t in s.q.th ==> Bare(s'.q.th[t]) == Afterwards(s.q.th[t], t in s.sleepers[..k], now))
    && (forall t :: t in s'.q.seat <==> t in s.q.seat || t in s.sleepers[..k])
  }

  /** The first `k` sleepers are exactly those whose time has come. */
  ghost predicate WakesOnly(s: Sys, k: nat, now: nat) {
    forall i :: 0 <= i < |s.sleepers| ==>
      s.sleepers[i] in s.q.th && (s.q.th[s.sleepers[i]].wakeup <= now % U32 <==> i < k)
  }

  /** wake_up_sleeping: exactly the sleepers whose time has come. The list is sorted, so the loop can
      stop at the first one that is not due. */
  method WakeUp(sc: Scheduler, now: nat) returns (ghost k: nat)
    requires Inv(S(sc))
    modifies sc`th, sc`heads, sc`tails, sc`queues, sc`seat, sc`sleepHead, sc`sleepers
    ensures Inv(S(sc)) && Woken(old(S(sc)), S(sc), k, now)
    ensures WakesOnly(old(S(sc)), k, now)
    ensures CurrentOk(old(S(sc))) ==> CurrentOk(S(sc))
  {
    hide Linked, ReadyOk, History, SleepOk, ApartOk, Woken, CurrentOk, Idle;
    ghost var s0 := S(sc);
    WokenNone(s0, now);
    k := 0;
    while sc.sleepHead != NONE && sc.th[sc.sleepHead].wakeup <= now % U32
      invariant sc.sleepHead != NONE ==> sc.sleepHead in sc.th
      invariant 0 <= k <= |s0.sleepers| && Inv(S(sc)) && Woken(s0, S(sc), k, now)
      invariant forall i :: 0 <= i < k ==> s0.sleepers[i] in s0.q.th && s0.q.th[s0.sleepers[i]].wakeup <= now % U32
      decreases |s0.sleepers| - k
    {
      ghost var s := S(sc);
      WakeNext(s0, s, k, now);
      WakeFirst(sc, now);
      WokenNext(s0, s, S(sc), k, now);
      HeadIn(S(sc));
      k := k + 1;
    }
    WokenRest(s0, S(sc), k, now);
  }

  /** The first sleeper goes back to its queue. */
  method WakeFirst(sc: Scheduler, now: nat)
    requires Inv(S(sc)) && sc.sleepers != []
    modifies sc`th, sc`heads, sc`tails, sc`queues, sc`seat, sc`sleepHead, sc`sleepers
    ensures Inv(S(sc)) && Enqueued(Awoken(old(S(sc))).q, sc.Q(), old(sc.sleepers)[0], now)
    ensures S(sc) == Awoken(old(S(sc))).(q := sc.Q())
  {
    hide Linked, ReadyOk, History, SleepOk, ApartOk, Idle, Enqueued;
    ghost var s := S(sc);
    PopSleeper(s);
    var t := sc.sleepHead;
    sc.sleepHead := sc.th[t].nextSleep;
    sc.th := sc.th[t := sc.th[t].(nextSleep := NONE)];
    sc.sleepers := sc.sleepers[1..];
    assert S(sc) == Awoken(s);
    Enqueue(sc, t, now);
  }

  lemma HeadIn(s: Sys)
    requires Inv(s)
    ensures s.sleepHead == Ptr(s.sleepers, 0) && (s.sleepHead != NONE ==> s.sleepHead in s.q.th)
  {
    hide Linked, ReadyOk, History;
  }

  lemma SleepTail(th: Threads, head: int, s: seq<nat>)
    requires SleepOk(th, head, s) && s != []
    ensures head == s[0] && s[0] in th && th[s[0]].nextSleep == Ptr(s, 1) && th[s[0]].tid != 0 && s[0] !in s[1..]
    ensures SleepOk(th[s[0] := th[s[0]].(nextSleep := NONE)], Ptr(s, 1), s[1..])
  {
    var r, th' := s[1..], th[s[0] := th[s[0]].(nextSleep := NONE)];
    forall k | 0 <= k < |r| ensures r[k] == s[k + 1] && r[k] != s[0] && Ptr(r, k + 1) == Ptr(s, k + 2) {}
    forall i, j | 0 <= i < j < |r| ensures r[i] != r[j]
      && th'[r[i]].wakeup <= th'[r[j]].wakeup { assert r[i] == s[i + 1] && r[j] == s[j + 1]; }
  }

  lemma WokenNone(s: Sys, now: nat)
    requires Inv(s)
    ensures Woken(s, s, 0, now) && (s.sleepHead != NONE ==> s.sleepHead in s.q.th)
  {
    HeadIn(s);
    hide ReadyOk, History, SleepOk, Linked;
    LinkedSized(s.q);
    assert s.sleepers[..0] == [] && s.sleepers[0..] == s.sleepers;
    forall p | 0 <= p < LEVELS ensures s.q.queues[p] == s.q.queues[p] + Bound(s.q.th, s.sleepers[..0], p) {}
  }

  lemma SleepersDistinct(s: Sys, k: nat)
    requires Inv(s) && k < |s.sleepers|
    ensures s.sleepers[k] !in s.sleepers[..k] && s.sleepers[k] in s.q.th && s.sleepers[k] !in s.q.seat
  {
    hide Linked, ReadyOk, History;
    assert s.sleepers[k] in s.sleepers;
  }

  /** Where the loop stands. */
  lemma WakeNext(s0: Sys, s: Sys, k: nat, now: nat)
    requires Inv(s0) && Inv(s) && Woken(s0, s, k, now) && s.sleepHead != NONE && s.sleepHead in s.q.th
    ensures k < |s0.sleepers| && s.sleepers != [] && s.sleepers[0] == s0.sleepers[k] == s.sleepHead
    ensures s.sleepHead in s0.q.th
    ensures Bare(s.q.th[s.sleepHead]) == Bare(s0.q.th[s.sleepHead])
    ensures s.q.th[s.sleepHead].wakeup == s0.q.th[s.sleepHead].wakeup
  {
    hide Linked, ReadyOk, History, SleepOk, ApartOk, Idle;
    SleepersDistinct(s0, k);
    var t := s0.sleepers[k];
    assert Bare(s.q.th[t]) == Bare(s0.q.th[t]);
    assert Bare(s.q.th[t]).wakeup == s.q.th[t].wakeup;
  }

  lemma BoundNext(th: Threads, s: seq<nat>, k: nat, p: nat)
    requires k < |s| && s[k] in th
    ensures Bound(th, s[..k + 1], p) == Bound(th, s[..k], p) + if Level(th[s[k]].priority) == p then [s[k]] else []
  {
    assert s[..k + 1][..k] == s[..k];
  }

  lemma WokenNext(s0: Sys, s: Sys, s': Sys, k: nat, now: nat)
    requires Woken(s0, s, k, now) && k < |s0.sleepers| && s.sleepers != [] && s.sleepers[0] in s0.q.th
    requires s.sleepers[0] in s.q.th
    requires Bare(s.q.th[s.sleepers[0]]) == Bare(s0.q.th[s.sleepers[0]])
    requires Enqueued(Awoken(s).q, s'.q, s.sleepers[0], now) && s' == Awoken(s).(q := s'.q)
    ensures Woken(s0, s', k + 1, now)
  {
    hide Quantum, Bound;
    var t := s.sleepers[0];
    assert t == s0.sleepers[k] && s.sleepers[1..] == s0.sleepers[k + 1..];
    assert Bare(s.q.th[t]).priority == s.q.th[t].priority;
    forall p | 0 <= p < LEVELS ensures s'.q.queues[p] == s0.q.queues[p] + Bound(s0.q.th, s0.sleepers[..k + 1], p) {
      BoundNext(s0.q.th, s0.sleepers, k, p);
    }
    assert s0.sleepers[..k + 1] == s0.sleepers[..k] + [t];
    WokenFields(s0, s, s', k, now);
  }

  lemma WokenFields(s0: Sys, s: Sys, s': Sys, k: nat, now: nat)
    requires Woken(s0, s, k, now) && k < |s0.sleepers| && s.sleepers != [] && s.sleepers[0] in s0.q.th
    requires s.sleepers[0] in s.q.th
    requires s.sleepers[0] == s0.sleepers[k] && s0.sleepers[..k + 1] == s0.sleepers[..k] + [s0.sleepers[k]]
    requires Bare(s.q.th[s.sleepers[0]]) == Bare(s0.q.th[s.sleepers[0]])
    requires Enqueued(Awoken(s).q, s'.q, s.sleepers[0], now)
    ensures s'.q.th.Keys == s0.q.th.Keys
    ensures forall t :: t in s0.q.th ==> Bare(s'.q.th[t]) == Afterwards(s0.q.th[t], t in s0.sleepers[..k + 1], now)
    ensures forall t :: t in s'.q.seat <==> t in s0.q.seat || t in s0.sleepers[..k + 1]
  {
    hide Quantum, Bound;
    var x := s.sleepers[0];
    forall t | t in s0.q.th
      ensures Bare(s'.q.th[t]) == Afterwards(s0.q.th[t], t in s0.sleepers[..k + 1], now)
    {
      assert t in s0.sleepers[..k + 1] <==> t in s0.sleepers[..k] || t == x;
      if t == x {
        QueuedBare(s.q.th[x], s0.q.th[x], now);
      }
    }
    assert forall t :: t in s0.sleepers[..k + 1] <==> t in s0.sleepers[..k] || t == x;
  }

  lemma QueuedBare(x: Thread, y: Thread, now: nat)
    requires Bare(x) == Bare(y)
    ensures Bare(Queued(x.(nextSleep := NONE), now)) == Bare(Queued(y.(nextSleep := NONE), now))
  {
    hide Quantum;
    assert Bare(x).priority == x.priority && Bare(y).priority == y.priority;
  }

  lemma WokenRest(s0: Sys, s: Sys, k: nat, now: nat)
    requires Inv(s0) && Woken(s0, s, k, now)
    requires s.sleepHead != NONE ==> s.sleepHead in s.q.th && s.q.th[s.sleepHead].wakeup > now % U32
    requires forall i :: 0 <= i < k ==> s0.sleepers[i] in s0.q.th && s0.q.th[s0.sleepers[i]].wakeup <= now % U32
    ensures WakesOnly(s0, k, now)
    ensures CurrentOk(s0) ==> CurrentOk(s)
  {
    hide Linked, ReadyOk, History, ApartOk, Idle, Bound, SleepOk, CurrentOk;
    WokenCurrent(s0, s, k, now);
    if k < |s0.sleepers| {
      SleepersDistinct(s0, k);
      var t := s0.sleepers[k];
      assert Bare(s.q.th[t]).wakeup == s.q.th[t].wakeup;
    }
    WakesRest(s0, k, now);
  }

  /** The list is sorted, so nobody behind a sleeper that is not due is due. */
  lemma WakesRest(s: Sys, k: nat, now: nat)
    requires SleepOk(s.q.th, s.sleepHead, s.sleepers) && k <= |s.sleepers|
    requires k < |s.sleepers| && s.sleepers[k] in s.q.th ==> s.q.th[s.sleepers[k]].wakeup > now % U32
    requires forall i :: 0 <= i < k ==> s.sleepers[i] in s.q.th && s.q.th[s.sleepers[i]].wakeup <= now % U32
    ensures WakesOnly(s, k, now)
  {
    hide Distinct;
  }

  lemma WokenCurrent(s0: Sys, s: Sys, k: nat, now: nat)
    requires Woken(s0, s, k, now)
    ensures CurrentOk(s0) ==> CurrentOk(s)
  {
    hide Quantum, Bound;
    if CurrentOk(s0) {
      var y := s.q.th[s0.current];
      assert Bare(y).state == y.state && Bare(y).tid == y.tid && Bare(y).quantum == y.quantum
        && Bare(y).passed == y.passed;
    }
  }

  /** The threads after `t` was put at place `k` of the sleeper list `s`. */
  ghost function Lulled(th: Threads, s: seq<nat>, k: nat, t: nat, wake: nat): Threads
    requires t in th && k <= |s| && (k > 0 ==> s[k - 1] in th)
  {
    var th1 := th[t := th[t].(wakeup := wake, nextSleep := Ptr(s, k))];
    if k == 0 then th1 else th1[s[k - 1] := th1[s[k - 1]].(nextSleep := t)]
  }

  /** The place for a wakeup time: after all sleepers that wake no later. */
  ghost predicate PlaceFor(th: Threads, s: seq<nat>, k: nat, wake: nat) {
    && k <= |s| && (forall i :: 0 <= i < |s| ==> s[i] in th)
    && (forall i :: 0 <= i < k ==> th[s[i]].wakeup <= wake) && (forall i :: k <= i < |s| ==> th[s[i]].wakeup > wake)
  }

  function Inserted(s: seq<nat>, k: nat, t: nat): seq<nat>
    requires k <= |s|
  {
    s[..k] + [t] + s[k..]
  }

  lemma InsertedAt(s: seq<nat>, k: nat, t: nat, n: nat)
    requires k <= |s| && n <= |s|
    ensures Inserted(s, k, t)[n] == if n < k then s[n] else if n == k then t else s[n - 1]
    ensures Ptr(Inserted(s, k, t), n + 1) == if n + 1 < k then Ptr(s, n + 1) else if n + 1 == k then t else Ptr(s, n)
  {
  }

  lemma LulledLink(th: Threads, head: int, s: seq<nat>, k: nat, t: nat, wake: nat, n: nat)
    requires SleepOk(th, head, s) && t in th && th[t].tid != 0 && t !in s && PlaceFor(th, s, k, wake) && n <= |s|
    ensures var s', th' := Inserted(s, k, t), Lulled(th, s, k, t, wake);
      && s'[n] in th' && th'[s'[n]].nextSleep == Ptr(s', n + 1) && th'[s'[n]].tid != 0
      && th'[s'[n]].wakeup == if n == k then wake else th[s'[n]].wakeup
  {
    InsertedAt(s, k, t, n);
    assert n < k ==> s[n] in s;
    assert n > k ==> s[n - 1] in s;
    assert k > 0 ==> s[k - 1] in s;
    hide Inserted;
  }

  lemma InsertedDistinct(s: seq<nat>, k: nat, t: nat)
    requires Distinct(s) && t !in s && k <= |s|
    ensures Distinct(Inserted(s, k, t))
  {
    var s' := Inserted(s, k, t);
    forall i, j | 0 <= i < j < |s'| ensures s'[i] != s'[j] {
      InsertedAt(s, k, t, i);
      InsertedAt(s, k, t, j);
    }
  }

  /** A new sleeper at its place keeps the list sorted. */
  lemma LulledSleep(th: Threads, head: int, s: seq<nat>, k: nat, t: nat, wake: nat)
    requires SleepOk(th, head, s) && t in th && th[t].tid != 0 && t !in s && PlaceFor(th, s, k, wake)
    ensures SleepOk(Lulled(th, s, k, t, wake), if k == 0 then t else head, Inserted(s, k, t))
  {
    hide Lulled, Inserted;
    var s', th' := Inserted(s, k, t), Lulled(th, s, k, t, wake);
    assert |s'| == |s| + 1 by { InsertedSize(s, k, t); }
    InsertedDistinct(s, k, t);
    forall n | 0 <= n < |s'| ensures s'[n] in th' && th'[s'[n]].nextSleep == Ptr(s', n + 1)
      && th'[s'[n]].tid != 0 { LulledLink(th, head, s, k, t, wake, n); }
    forall i, j | 0 <= i < j < |s'|
      ensures th'[s'[i]].wakeup <= th'[s'[j]].wakeup { LulledOrder(th, head, s, k, t, wake, i, j); }
    InsertedAt(s, k, t, 0);
  }

  lemma InsertedSize(s: seq<nat>, k: nat, t: nat)
    requires k <= |s|
    ensures |Inserted(s, k, t)| == |s| + 1 && forall x :: x in Inserted(s, k, t) <==> x in s || x == t
  {
    assert s == s[..k] + s[k..];
  }

  lemma LulledOrder(th: Threads, head: int, s: seq<nat>, k: nat, t: nat, wake: nat, i: nat, j: nat)
    requires SleepOk(th, head, s) && t in th && th[t].tid != 0 && t !in s && PlaceFor(th, s, k, wake) && i < j <= |s|
    ensures var s', th' := Inserted(s, k, t), Lulled(th, s, k, t, wake);
      |s'| == |s| + 1 && s'[i] in th' && s'[j] in th' && th'[s'[i]].wakeup <= th'[s'[j]].wakeup
  {
    hide Lulled, Inserted, Distinct;
    InsertedSize(s, k, t);
    LulledLink(th, head, s, k, t, wake, i);
    LulledLink(th, head, s, k, t, wake, j);
    InsertedAt(s, k, t, i);
    InsertedAt(s, k, t, j);
  }

  /** enqueue_sleeper: behind all sleepers that wake no later, so that equal times keep their order. */
  method EnqueueSleeper(sc: Scheduler, t: nat, wake: nat) returns (ghost k: nat)
    requires Inv(S(sc)) && t in sc.th && sc.th[t].tid != 0 && t !in sc.seat && t !in sc.sleepers && wake < U32
    modifies sc`th, sc`sleepHead, sc`sleepers
    ensures Inv(S(sc)) && old(PlaceFor(sc.th, sc.sleepers, k, wake)) && sc.sleepers == Inserted(old(sc.sleepers), k, t)
    ensures old(k > 0 ==> sc.sleepers[k - 1] in sc.th) && sc.th == Lulled(old(sc.th), old(sc.sleepers), k, t, wake)
    ensures sc.sleepHead == if k == 0 then t else old(sc.sleepHead)
  {
    hide Linked, ReadyOk, History, ApartOk, Idle;
    ghost var s0 := S(sc);
    ghost var s: seq<nat> := sc.sleepers;
    var prev;
    prev, k := FindPlace(sc, wake);
    LulledInv(s0, k, t, wake);
    if prev == NONE {
      sc.th := sc.th[t := sc.th[t].(wakeup := wake, nextSleep := sc.sleepHead)];
      sc.sleepHead := t;
    } else {
      sc.th := sc.th[t := sc.th[t].(wakeup := wake, nextSleep := sc.th[prev].nextSleep)];
      sc.th := sc.th[prev := sc.th[prev].(nextSleep := t)];
    }
    sc.sleepers := Inserted(s, k, t);
  }

  /** The traversal of enqueue_sleeper: the sleeper to insert after, NONE for the front. */
  method FindPlace(sc: Scheduler, wake: nat) returns (prev: int, ghost k: nat)
    requires SleepOk(sc.th, sc.sleepHead, sc.sleepers)
    ensures PlaceFor(sc.th, sc.sleepers, k, wake) && prev == if k == 0 then NONE else sc.sleepers[k - 1]
  {
    hide Distinct, PlaceFor;
    ghost var s: seq<nat> := sc.sleepers;
    if sc.sleepHead == NONE || wake < sc.th[sc.sleepHead].wakeup {
      PlaceIs(sc.th, sc.sleepHead, s, 0, wake);
      return NONE, 0;
    }
    prev, k := sc.sleepHead, 1;
    while sc.th[prev].nextSleep != NONE && sc.th[sc.th[prev].nextSleep].wakeup <= wake
      invariant 1 <= k <= |s| && prev == s[k - 1] && prev in sc.th && sc.th[prev].nextSleep == Ptr(s, k)
      invariant forall i :: 0 <= i < k ==> sc.th[s[i]].wakeup <= wake
      decreases |s| - k
    {
      prev, k := sc.th[prev].nextSleep, k + 1;
    }
    PlaceIs(sc.th, sc.sleepHead, s, k, wake);
  }

  lemma PlaceIs(th: Threads, head: int, s: seq<nat>, k: nat, wake: nat)
    requires SleepOk(th, head, s) && k <= |s| && (k < |s| ==> th[s[k]].wakeup > wake) && forall i :: 0 <= i < k ==>
      th[s[i]].wakeup <= wake
    ensures PlaceFor(th, s, k, wake)
  {
    hide Distinct;
  }

  lemma LulledInv(s: Sys, k: nat, t: nat, wake: nat)
    requires Inv(s) && t in s.q.th && s.q.th[t].tid != 0 && t !in s.q.seat && t !in s.sleepers
    requires PlaceFor(s.q.th, s.sleepers, k, wake)
    ensures Inv(s.(q := s.q.(th := Lulled(s.q.th, s.sleepers, k, t, wake)), sleepHead := if k == 0 then t
      else s.sleepHead, sleepers := Inserted(s.sleepers, k, t)))
  {
    hide Linked, ReadyOk, History, SleepOk, Lulled, Inserted, Quantum;
    var th' := Lulled(s.q.th, s.sleepers, k, t, wake);
    LulledSleep(s.q.th, s.sleepHead, s.sleepers, k, t, wake);
    InsertedSize(s.sleepers, k, t);
    LulledFields(s.q.th, s.sleepers, k, t, wake);
    FieldsFree(s.q, th');
    LulledRest(s, th');
  }

  lemma LulledFields(th: Threads, s: seq<nat>, k: nat, t: nat, wake: nat)
    requires t in th && k <= |s| && (k > 0 ==> s[k - 1] in th)
    ensures var th' := Lulled(th, s, k, t, wake);
      th'.Keys == th.Keys && forall x :: x in th ==>
        th'[x] == th[x].(wakeup := th'[x].wakeup, nextSleep := th'[x].nextSleep)
  {
  }

  lemma LulledRest(s: Sys, th': Threads)
    requires ReadyOk(s.q) && History(s.q, s.dispatched)
    requires th'.Keys == s.q.th.Keys && forall x :: x in s.q.th ==>
      th'[x] == s.q.th[x].(wakeup := th'[x].wakeup, nextSleep := th'[x].nextSleep)
    ensures ReadyOk(s.q.(th := th')) && History(s.q.(th := th'), s.dispatched)
  {
    hide Quantum, Level;
    var q' := s.q.(th := th');
    forall y | y in q'.seat ensures ReadyAt(q', y) { assert ReadyAt(s.q, y); }
    forall x | x in s.dispatched ensures x in th' && HistoryOk(th'[x], s.dispatched[x], x in q'.seat) {
      assert HistoryOk(s.q.th[x], s.dispatched[x], x in s.q.seat);
    }
  }

  /** sys_sleep, and sys_nanosleep with `block`: the running thread goes to sleep and another runs. */
  method Sleep(sc: Scheduler, wake: nat, block: bool) returns (ghost k: nat)
    requires Inv(S(sc)) && CurrentOk(S(sc)) && sc.th[sc.current].tid != 0 && wake < U32
    modifies sc`th, sc`heads, sc`tails, sc`queues, sc`seat, sc`dispatched, sc`current, sc`sleepHead, sc`sleepers
    ensures Inv(S(sc)) && CurrentOk(S(sc)) && old(PlaceFor(sc.th, sc.sleepers, k, wake))
    ensures sc.sleepers == Inserted(old(sc.sleepers), k, old(sc.current))
    ensures exists s1 :: Lulls(old(S(sc)), s1, k, wake, block) && Switched(s1, S(sc))
  {
    hide Linked, ReadyOk, History, SleepOk, ApartOk, Idle, Quantum, Lulled, Inserted;
    var t := sc.current;
    if block {
      HistoryBound(S(sc), t);
      FreeFields(S(sc), t, sc.th[t].(state := Blocked));
      sc.th := sc.th[t := sc.th[t].(state := Blocked)];
    }
    k := EnqueueSleeper(sc, t, wake);
    assert Lulls(old(S(sc)), S(sc), k, wake, block);
    SwitchNext(sc);
  }

  /** The running thread `s.current` entered the sleeper list at place `k`. */
  ghost predicate Lulls(s: Sys, s': Sys, k: nat, wake: nat, block: bool) {
    && s.current in s.q.th && PlaceFor(s.q.th, s.sleepers, k, wake)
    && var th := if block then s.q.th[s.current := s.q.th[s.current].(state := Blocked)] else s.q.th;
       && (k > 0 ==> s.sleepers[k - 1] in th)
       && s' == s.(q := s.q.(th := Lulled(th, s.sleepers, k, s.current, wake)), sleepHead := if k == 0 then s.current
         else s.sleepHead, sleepers := Inserted(s.sleepers, k, s.current))
  }

  /** The walk of sched_dequeue: the thread before `t` in queue `p`, if `t` is there but not first. */
  method FindBefore(sc: Scheduler, p: nat, t: nat) returns (prev: int, ghost k: nat)
    requires p < |sc.queues| && p < |sc.heads| && p < |sc.tails| && Chain(sc.th, sc.heads[p], sc.tails[p], sc.queues[p])
    requires sc.heads[p] != t
    ensures prev == NONE ==> t !in sc.queues[p]
    ensures prev != NONE ==> k + 1 < |sc.queues[p]| && prev == sc.queues[p][k] && sc.queues[p][k + 1] == t
  {
    hide Chain, NextOf;
    ghost var s: seq<nat> := sc.queues[p];
    ChainAt(sc.th, sc.heads[p], sc.tails[p], s, 0);
    prev, k := sc.heads[p], 0;
    while prev != NONE && sc.th[prev].next != t
      invariant 0 <= k <= |s| && prev == Ptr(s, k) && (prev != NONE ==> prev in sc.th) && t !in s[..k]
      invariant (k < |s| ==> s[k] != t)
      decreases |s| - k
    {
      ChainAt(sc.th, sc.heads[p], sc.tails[p], s, k);
      ChainAt(sc.th, sc.heads[p], sc.tails[p], s, k + 1);
      assert s[..k + 1] == s[..k] + [s[k]];
      prev, k := sc.th[prev].next, k + 1;
    }
    ChainAt(sc.th, sc.heads[p], sc.tails[p], s, k);
    assert prev == NONE ==> s[..k] == s;
  }

  lemma ChainAt(th: Threads, head: int, tail: int, s: seq<nat>, k: nat)
    requires Chain(th, head, tail, s) && k <= |s|
    ensures head == Ptr(s, 0) && (k < |s| ==> s[k] in th && th[s[k]].next == Ptr(s, k + 1))
  {
    assert k < |s| ==> NextOf(th, s[k]) == Ptr(s, k + 1);
  }

  /** Takes `t` out of queue `p` if it is there. */
  method TakeOut(sc: Scheduler, p: nat, t: nat)
    requires Linked(sc.Q()) && p < LEVELS && t in sc.th && (t in sc.seat ==> sc.seat[t] == p)
    modifies sc`th, sc`heads, sc`tails, sc`queues, sc`seat
    ensures Linked(sc.Q()) && SameBare(old(sc.th), sc.th) && sc.seat == old(sc.seat) - {t} && |old(sc.queues)| == LEVELS
    ensures t !in old(sc.seat) ==> sc.queues == old(sc.queues)
    ensures t in old(sc.seat) ==> Cut(old(sc.queues), sc.queues, p, t)
  {
    hide Linked, Removed, RemoveAt, SameBare;
    ghost var q0 := sc.Q();
    LinkedSized(q0);
    HeadOf(q0, p);
    InQueue(q0, p, t);
    BareRefl(sc.th);
    if sc.heads[p] == t {
      PrevIn(q0, p, 0);
      RemovedFacts(q0, p, 0);
      sc.Unqueue(p, 0, t, NONE);
    } else {
      assert Chain(sc.th, sc.heads[p], sc.tails[p], sc.queues[p]) by { ChainOf(q0, p); }
      var prev, k := FindBefore(sc, p, t);
      if prev != NONE {
        PrevIn(q0, p, k + 1);
        RemovedFacts(q0, p, k + 1);
        sc.Unqueue(p, k + 1, t, prev);
      } else {
        assert sc.seat - {t} == sc.seat;
      }
    }
  }

  lemma ChainOf(q: Queues, p: nat)
    requires Linked(q) && p < LEVELS
    ensures |q.heads| == |q.tails| == |q.queues| == LEVELS && Chain(q.th, q.heads[p], q.tails[p], q.queues[p])
  {
    hide Chain;
  }

  lemma BareRefl(th: Threads)
    ensures SameBare(th, th)
  {
  }

  /** sched_dequeue: the thread leaves its queue, if it is on one, and is
      dead. Idle tasks, and threads whose priority does not exist, are left where they are. The
      dispatch history of a thread taken off a queue ends. */
  method Dequeue(sc: Scheduler, t: nat)
    requires Inv(S(sc)) && t in sc.th
    modifies sc`th, sc`heads, sc`tails, sc`queues, sc`seat, sc`dispatched
    ensures Inv(S(sc))
    ensures if old(sc.th)[t].tid == 0 || !(0 <= old(sc.th)[t].priority < LEVELS) then S(sc) == old(S(sc))
      else Killed(old(S(sc)), S(sc), t)
  {
    hide Linked, ReadyOk, History, SleepOk, ApartOk, Idle, SameBare, RemoveAt, Quantum, Bare;
    var p := sc.th[t].priority;
    if sc.th[t].tid == 0 || p < 0 || p >= LEVELS { return; }
    ghost var s0 := S(sc);
    SeatIs(s0.q, t);
    TakeOut(sc, p, t);
    ghost var q1 := sc.Q();
    assert t in q1.th by { BareKeys(s0.q.th, q1.th); }
    OneField(q1, t, sc.th[t].(next := NONE, state := Dead));
    sc.th := sc.th[t := sc.th[t].(next := NONE, state := Dead)];
    if t in s0.q.seat { sc.dispatched := sc.dispatched - {t}; }
    KilledInv(s0, q1, S(sc), t);
  }

  lemma SeatIs(q: Queues, t: nat)
    requires ReadyOk(q) && t in q.th && 0 <= q.th[t].priority < LEVELS
    ensures t in q.seat ==> q.seat[t] == q.th[t].priority
  {
    assert t in q.seat ==> ReadyAt(q, t);
  }

  /** Thread `t` is off the queues and dead, and nothing else changed but queue links. */
  ghost predicate Killed(s: Sys, s': Sys, t: nat) {
    && t in s.q.th && s'.q.th.Keys == s.q.th.Keys && s'.q.seat == s.q.seat - {t}
    && s' == s.(q := s'.q, dispatched := if t in s.q.seat then s.dispatched - {t} else s.dispatched)
    && (forall x :: x in s.q.th ==>
      Bare(s'.q.th[x]) == if x == t then Bare(s.q.th[t]).(state := Dead) else Bare(s.q.th[x]))
    && |s.q.queues| == LEVELS && (t !in s.q.seat ==> s'.q.queues == s.q.queues)
    && (t in s.q.seat && s.q.seat[t] < LEVELS ==> Cut(s.q.queues, s'.q.queues, s.q.seat[t], t))
  }

  /** `t` was taken out of queue `p`. */
  ghost predicate Cut(queues: seq<seq<nat>>, queues': seq<seq<nat>>, p: nat, t: nat)
    requires p < |queues|
  {
    exists k :: 0 <= k < |queues[p]| && queues[p][k] == t && queues' == queues[p := RemoveAt(queues[p], k)]
  }

  lemma KilledInv(s: Sys, q1: Queues, s': Sys, t: nat)
    requires Inv(s) && t in s.q.th && s.q.th[t].tid != 0 && SameBare(s.q.th, q1.th) && q1.seat == s.q.seat - {t}
    requires t in q1.th
    requires s'.q == q1.(th := q1.th[t := q1.th[t].(next := NONE, state := Dead)]) && Linked(s'.q)
    requires s' == s.(q := s'.q, dispatched := if t in s.q.seat then s.dispatched - {t} else s.dispatched)
    ensures Inv(s') && s'.q.th.Keys == s.q.th.Keys
    ensures forall x :: x in s.q.th ==>
      Bare(s'.q.th[x]) == if x == t then Bare(s.q.th[t]).(state := Dead) else Bare(s.q.th[x])
  {
    hide Linked, Quantum, Level;
    forall x | x in s.q.th
      ensures x in s'.q.th && Bare(s'.q.th[x]) == if x == t then Bare(s.q.th[t]).(state := Dead) else Bare(s.q.th[x])
    {
      assert Bare(q1.th[x]) == Bare(s.q.th[x]);
    }
    assert ReadyOk(s'.q) by {
      hide History, SleepOk, ApartOk, Idle;
      forall x | x in s'.q.seat ensures ReadyAt(s'.q, x) {
        assert ReadyAt(s.q, x);
        var y := s'.q.th[x];
        assert Bare(y).tid == y.tid && Bare(y).state == y.state && Bare(y).priority == y.priority;
      }
    }
    assert History(s'.q, s'.dispatched) by {
      hide ReadyOk, SleepOk, ApartOk, Idle;
      forall x | x in s'.dispatched ensures x in s'.q.th && HistoryOk(s'.q.th[x], s'.dispatched[x], x in s'.q.seat) {
        assert HistoryOk(s.q.th[x], s.dispatched[x], x in s.q.seat);
        var y := s'.q.th[x];
        assert Bare(y).tid == y.tid && Bare(y).passed == y.passed && Bare(y).estimate == y.estimate
          && Bare(y).priority == y.priority;
      }
    }
    KilledRest(s, s', t);
  }

  lemma KilledRest(s: Sys, s': Sys, t: nat)
    requires SleepOk(s.q.th, s.sleepHead, s.sleepers) && ApartOk(s.q, s.sleepers) && Idle(s.q, s.idle, s.sleepers)
    requires t in s.q.th
    requires s.q.th[t].tid != 0 && s'.q.th.Keys == s.q.th.Keys && s'.q.seat == s.q.seat - {t}
    requires forall x :: x in s.q.th ==>
      Bare(s'.q.th[x]) == if x == t then Bare(s.q.th[t]).(state := Dead) else Bare(s.q.th[x])
    ensures SleepOk(s'.q.th, s.sleepHead, s.sleepers) && ApartOk(s'.q, s.sleepers) && Idle(s'.q, s.idle, s.sleepers)
  {
    hide SleepOk;
    forall x | x in s.q.th
      ensures s'.q.th[x].nextSleep == s.q.th[x].nextSleep && s'.q.th[x].wakeup == s.q.th[x].wakeup
      ensures s'.q.th[x].tid == s.q.th[x].tid
    {
      var y := s'.q.th[x];
      assert Bare(y).nextSleep == y.nextSleep && Bare(y).wakeup == y.wakeup && Bare(y).tid == y.tid;
    }
    SleepSame(s.q.th, s'.q.th, s.sleepHead, s.sleepers);
  }
}
