/** The multilevel feedback queue scheduler and the list of sleepers. */
module Sched {
  import opened Common
  import opened SchedQueues

  /** The length of a slice at each priority, in ticks. */
  function Quantum(p: nat): nat {
    match p
    case 0 => 40 case 1 => 80 case 2 => 120 case _ => 200
  }

  /** The queue for a priority; a priority that does not exist counts as medium. */
  function Level(priority: int): (p: nat)
    ensures p < LEVELS && (0 <= priority < LEVELS ==> p == priority)
  {
    if 0 <= priority < LEVELS then priority else MEDIUM
  }

  /** The priority for a burst estimate: the first whose slice covers it, else the lowest. */
  function LevelFor(estimate: nat): (p: nat)
    ensures p < LEVELS
    ensures estimate <= Quantum(p) || p == LEVELS - 1
    ensures forall r :: 0 <= r < p ==> estimate > Quantum(r)
  {
    if estimate <= 40 then 0 else if estimate <= 80 then 1 else if estimate <= 120 then 2 else 3
  }

  /** Estimates that do not exceed a slice never lead to a lower priority than that slice's. */
  lemma NeverWorse(passed: nat, p: nat)
    requires p < LEVELS && passed <= Quantum(p)
    ensures (passed + Quantum(p)) / 2 <= Quantum(p) && LevelFor((passed + Quantum(p)) / 2) <= p
  {
  }

  /** Ticks a thread has been waiting: a 32-bit difference. */
  function Waited(now: nat, last: nat): nat {
    (now - last) % U32
  }

  predicate Due(x: Thread, now: nat, threshold: nat) {
    Waited(now, x.last) >= threshold
  }

  /** The threads of `s` that have waited long enough, in order. */
  function Old(th: Threads, s: seq<nat>, now: nat, threshold: nat): seq<nat> {
    if s == [] then []
    else Old(th, s[..|s| - 1], now, threshold) + if s[|s| - 1] in th && Due(th[s[|s| - 1]], now, threshold)
      then [s[|s| - 1]] else []
  }

  /** The other threads of `s`, in order. */
  function Young(th: Threads, s: seq<nat>, now: nat, threshold: nat): seq<nat> {
    if s == [] then []
    else Young(th, s[..|s| - 1], now, threshold) + if s[|s| - 1] in th && Due(th[s[|s| - 1]], now, threshold) then []
      else [s[|s| - 1]]
  }

  lemma OldYoungNext(th: Threads, s: seq<nat>, n: nat, now: nat, threshold: nat)
    requires n < |s| && s[n] in th
    ensures Old(th, s[..n + 1], now, threshold) == Old(th, s[..n], now, threshold) + if Due(th[s[n]], now, threshold)
      then [s[n]] else []
    ensures Young(th, s[..n + 1], now, threshold)
      == Young(th, s[..n], now, threshold) + if Due(th[s[n]], now, threshold) then [] else [s[n]]
  {
    assert s[..n + 1][..n] == s[..n];
  }

  /** Every thread of `s` is in exactly one of the two parts. */
  lemma {:induction false} OldYoung(th: Threads, s: seq<nat>, now: nat, threshold: nat, t: nat)
    ensures t in Old(th, s, now, threshold) <==> t in s && t in th && Due(th[t], now, threshold)
    ensures t in Young(th, s, now, threshold) <==> t in s && !(t in th && Due(th[t], now, threshold))
    ensures |Old(th, s, now, threshold)| + |Young(th, s, now, threshold)| == |s|
  {
    if s != [] {
      var r := s[..|s| - 1];
      OldYoung(th, r, now, threshold, t);
      assert s == r + [s[|s| - 1]];
    }
  }

  const AGING_MS := 500
  const TIMER_HZ := 1000

  /** The threshold the two macros mean, and the one they expand to without parentheses. */
  const MEANT: nat := AGING_MS / (1000 / TIMER_HZ)
  const EXPANDED: nat := AGING_MS / 1000 / TIMER_HZ

  ghost predicate AllDue(th: Threads, s: seq<nat>, now: nat, threshold: nat) {
    forall i :: 0 <= i < |s| ==> s[i] in th && Due(th[s[i]], now, threshold)
  }

  lemma {:induction false} AllOld(th: Threads, s: seq<nat>, now: nat, threshold: nat)
    requires AllDue(th, s, now, threshold)
    ensures Old(th, s, now, threshold) == s
  {
    hide Due;
    if s != [] {
      AllOld(th, s[..|s| - 1], now, threshold);
      assert s == s[..|s| - 1] + [s[|s| - 1]];
    }
  }

  /** As written, the threshold is zero and an aging pass promotes every thread; so it does what
      is documented exactly when nobody in the queue has waited less than 500 ms. */
  lemma AgingAsMeant(th: Threads, s: seq<nat>, now: nat)
    requires forall i :: 0 <= i < |s| ==> s[i] in th
    ensures Old(th, s, now, EXPANDED) == s
    ensures Old(th, s, now, EXPANDED) == Old(th, s, now, MEANT) <==> AllDue(th, s, now, AGING_MS)
  {
    hide Old, Young, Waited;
    AllOld(th, s, now, EXPANDED);
    forall i | 0 <= i < |s| ensures s[i] in Old(th, s, now, MEANT) <==> Due(th[s[i]], now, AGING_MS) {
      OldYoung(th, s, now, MEANT, s[i]);
    }
    if AllDue(th, s, now, AGING_MS) { AllOld(th, s, now, MEANT); }
  }

  /** A thread that was queued this very tick is promoted, and should not be. */
  lemma AgingTooSoon(x: Thread, t: nat, now: nat)
    requires x.last == now % U32
    ensures Old(map[t := x], [t], now, EXPANDED) == [t] && Old(map[t := x], [t], now, MEANT) == []
  {
    assert [t][..0] == [];
    assert Waited(now, x.last) == 0;
  }

  /** A thread apart from its queue link. */
  function Bare(x: Thread): Thread {
    x.(next := NONE)
  }

  /** The fields of every thread but those in `old` are unchanged, up to queue links; those in `old`
      have priority `p` and a new waiting time. */
  ghost predicate Promoted(th: Threads, th': Threads, old_: seq<nat>, p: int, now: nat) {
    && th'.Keys == th.Keys
    && (forall t :: t in th ==>
      Bare(th'[t]) == if t in old_ then Bare(th[t]).(priority := p, last := now % U32) else Bare(th[t]))
  }

  class Scheduler {
    var th: Threads
    var heads: seq<int>
    var tails: seq<int>
    ghost var queues: seq<seq<nat>>
    ghost var seat: map<nat, nat>
    /** The sleepers, by ascending wakeup time. */
    var sleepHead: int
    ghost var sleepers: seq<nat>
    const idle: nat
    var current: nat
    /** The priority each thread had when it last got the CPU. */
    ghost var dispatched: map<nat, nat>
    /** Ticks after which a waiting thread is promoted. */
    const threshold: nat

    /** sched_init and the first switch: nothing is ready or asleep, and the idle task runs. */
    constructor (threshold: nat, idle: nat, task: Thread)
      requires task.tid == 0
      ensures this.threshold == threshold && Linked(Q()) && th == map[idle := task.(state := Running)]
      ensures current == this.idle == idle
      ensures queues == [[], [], [], []] && seat == map[] && sleepers == [] && sleepHead == NONE && dispatched == map[]
    {
      this.threshold, this.idle, th, heads, tails := threshold, idle, map[idle := task.(state := Running)],
        [NONE, NONE, NONE, NONE], [NONE, NONE, NONE, NONE];
      queues, seat, sleepHead, sleepers, current, dispatched := [[], [], [], []], map[], NONE, [], idle, map[];
    }

    ghost function Q(): Queues
      reads this
    {
      Queues(th, heads, tails, queues, seat)
    }

    /** The thread that `Removed` takes out. */
    method Unqueue(p: nat, ghost k: nat, t: nat, prev: int)
      requires Linked(Q()) && p < LEVELS && |queues| == |heads| == |tails| == LEVELS && k < |queues[p]|
      requires queues[p][k] == t
      requires prev == if k == 0 then NONE else queues[p][k - 1]
      modifies this`th, this`heads, this`tails, this`queues, this`seat
      ensures old(k > 0 ==> queues[p][k - 1] in th) && Q() == Removed(old(Q()), p, k) && Linked(Q())
    {
      hide Chains, Seats, RemoveAt;
      RemovedLinked(Q(), p, k);
      ghost var q := Removed(Q(), p, k);
      if prev >= 0 {
        th := SetNext(th, prev, NextOf(th, t));
      } else {
        heads := heads[p := NextOf(th, t)];
      }
      if tails[p] == t { tails := tails[p := prev]; }
      queues, seat := q.queues, q.seat;
    }

    /** Linking a thread in at the back. */
    method Enter(p: nat, t: nat)
      requires Linked(Q()) && p < LEVELS && t in th && t !in seat && th[t].next == NONE
      modifies this`th, this`heads, this`tails, this`queues, this`seat
      ensures old(p < |heads| == |tails| == |queues| && (tails[p] >= 0 ==> tails[p] in th))
      ensures Q() == Appended(old(Q()), p, t) && Linked(Q())
    {
      hide Chains, Seats;
      AppendedLinked(Q(), p, t);
      ghost var q := Appended(Q(), p, t);
      assert SetNext(th, t, NONE) == th;
      if tails[p] < 0 {
        heads := heads[p := t];
        tails := tails[p := t];
      } else {
        th := SetNext(th, tails[p], t);
        tails := tails[p := t];
      }
      queues, seat := q.queues, q.seat;
    }

    /** The removal and promotion of one thread in an aging pass. */
    method Promote(i: nat, ghost k: nat, t: nat, prev: int, now: nat)
      requires Linked(Q()) && 1 <= i < LEVELS && |queues| == |heads| == |tails| == LEVELS && k < |queues[i]|
      requires queues[i][k] == t
      requires prev == if k == 0 then NONE else queues[i][k - 1]
      modifies this`th, this`heads, this`tails, this`queues, this`seat
      ensures Linked(Q()) && queues == old(queues)[i := RemoveAt(old(queues)[i], k)][i - 1 := old(queues)[i - 1] + [t]]
      ensures Promoted(old(th), th, [t], i - 1, now) && seat == old(seat)[t := i - 1]
    {
      hide Linked, Removed, Appended, Promoted, RemoveAt;
      ghost var q0 := Q();
      PrevIn(q0, i, k);
      Unqueue(i, k, t, prev);
      ghost var q1 := Q();
      RemovedFacts(q0, i, k);
      Restamp(q1, t, i - 1, now);
      th := th[t := th[t].(priority := i - 1, next := NONE, last := now % U32)];
      ghost var q2 := Q();
      LinkedSized(q2);
      TailIn(q2, i - 1);
      Enter(i - 1, t);
      AppendedFacts(q2, i - 1, t);
      StampedAll(q0.th, q1.th, q2.th, th, t, i - 1, now);
      assert (q0.seat - {t})[t := i - 1] == q0.seat[t := i - 1];
    }

    /** One level of an aging pass: the threads that waited long enough move, in order, to the back
        of the next higher level; the others stay, in order. */
    method AgeLevel(i: nat, now: nat)
      requires Linked(Q()) && 1 <= i < LEVELS
      modifies this`th, this`heads, this`tails, this`queues, this`seat
      ensures Linked(Q()) && |old(queues)| == LEVELS
      ensures Aged(old(Q()), Q(), i, |old(queues)[i]|, now, threshold)
    {
      hide Linked, Promoted, RemoveAt, Old, Young, Waited, AgedFields;
      ghost var q0 := Q();
      LinkedSized(q0);
      ghost var s: seq<nat> := queues[i];
      ghost var n := 0;
      AgedNone(q0, i, now, threshold);
      HeadOf(q0, i);
      var cur, prev := heads[i], NONE;
      while cur != NONE
        invariant 0 <= n <= |s| && Linked(Q()) && Aged(q0, Q(), i, n, now, threshold)
        invariant cur == Ptr(s, n) && prev == Last(Young(q0.th, s[..n], now, threshold))
        decreases |s| - n
      {
        Place(q0, Q(), i, n, now, threshold);
        var after := th[cur].next;
        ghost var q := Q();
        ghost var k := |Young(q0.th, s[..n], now, threshold)|;
        if Waited(now, th[cur].last) >= threshold {
          Promote(i, k, cur, prev, now);
          AgedMove(q0, q, Q(), i, n, now, threshold);
        } else {
          prev := cur;
          AgedStay(q0, q, i, n, now, threshold);
        }
        cur := after;
        n := n + 1;
      }
    }

    /** sched_apply_aging: exactly the threads that waited long enough rise by exactly one level,
        keeping their order and going behind the threads already there; no thread is lost. */
    method ApplyAging(now: nat)
      requires Linked(Q())
      modifies this`th, this`heads, this`tails, this`queues, this`seat
      ensures Linked(Q()) && Risen(old(Q()), Q(), LEVELS - 1, now, threshold)
      ensures AgedUpTo(old(Q()), Q(), LEVELS, now, threshold)
    {
      hide Linked, Aged, Risen, AgedUpTo;
      ghost var q0 := Q();
      AgingStart(q0, now, threshold);
      var i := 1;
      while i < LEVELS
        invariant 1 <= i <= LEVELS && Linked(Q()) && Risen(q0, Q(), i - 1, now, threshold)
        invariant AgedUpTo(q0, Q(), i, now, threshold)
      {
        ghost var q := Q();
        LinkedSized(q);
        AgeLevel(i, now);
        RisenNext(q0, q, Q(), i, now, threshold);
        AgedNext(q0, q, Q(), i, now, threshold);
        i := i + 1;
      }
    }
  }

  /** A thread on one of the levels 1..hi that is due. */
  ghost predicate Rises(q: Queues, hi: nat, now: nat, threshold: nat, t: nat) {
    t in q.seat && t in q.th && 1 <= q.seat[t] <= hi && Due(q.th[t], now, threshold)
  }

  /** What aging did to a thread: one level higher with a new waiting time, or nothing. */
  ghost predicate RisenAt(q: Queues, q': Queues, up: bool, now: nat, t: nat) {
    && t in q.th && t in q'.th && (t in q.seat <==> t in q'.seat)
    && if up then
         t in q.seat && q.seat[t] > 0 && q'.seat[t] == q.seat[t] - 1
           && Bare(q'.th[t]) == Bare(q.th[t]).(priority := q.seat[t] - 1, last := now % U32)
       else
         Bare(q'.th[t]) == Bare(q.th[t]) && (t in q.seat ==> q'.seat[t] == q.seat[t])
  }

  /** Exactly the threads due on levels 1..hi have risen. */
  ghost predicate Risen(q: Queues, q': Queues, hi: nat, now: nat, threshold: nat) {
    && q'.th.Keys == q.th.Keys && q'.seat.Keys == q.seat.Keys
    && (forall t :: t in q.th ==> RisenAt(q, q', Rises(q, hi, now, threshold, t), now, t))
  }

  /** Queue `p` after levels 1..i-1 were processed: those that stayed, then those that rose to it. */
  ghost function Part(q0: Queues, p: nat, i: nat, now: nat, threshold: nat): seq<nat>
    requires p < LEVELS == |q0.queues|
  {
    var stay: seq<nat> := if 1 <= p < i then Young(q0.th, q0.queues[p], now, threshold) else q0.queues[p];
    if p + 1 < i && p + 1 < LEVELS then stay + Old(q0.th, q0.queues[p + 1], now, threshold) else stay
  }

  ghost predicate AgedUpTo(q0: Queues, q: Queues, i: nat, now: nat, threshold: nat) {
    && |q.queues| == |q0.queues| == LEVELS
    && (forall p :: 0 <= p < LEVELS ==> q.queues[p] == Part(q0, p, i, now, threshold))
  }

  lemma AgingStart(q: Queues, now: nat, threshold: nat)
    requires Linked(q)
    ensures Risen(q, q, 0, now, threshold) && AgedUpTo(q, q, 1, now, threshold)
  {
    hide Due, Old, Young, Linked;
    LinkedSized(q);
  }

  /** One level, thread by thread. */
  lemma LevelRisen(q: Queues, q': Queues, i: nat, now: nat, threshold: nat, t: nat)
    requires Linked(q) && i < LEVELS == |q.queues| && Aged(q, q', i, |q.queues[i]|, now, threshold) && t in q.th
    ensures RisenAt(q, q', t in q.seat && q.seat[t] == i && Due(q.th[t], now, threshold), now, t)
  {
    hide Linked, Old, Young, Due;
    var s: seq<nat> := q.queues[i];
    assert s[..|s|] == s;
    OldYoung(q.th, s, now, threshold, t);
    InQueue(q, i, t);
  }

  lemma InQueue(q: Queues, i: nat, t: nat)
    requires Linked(q) && |q.queues| == LEVELS && i < LEVELS
    ensures t in q.queues[i] <==> t in q.seat && q.seat[t] == i
  {
    hide Chains;
  }

  lemma AgedKeys(q: Queues, q': Queues, i: nat, n: nat, now: nat, threshold: nat)
    requires Aged(q, q', i, n, now, threshold)
    ensures q'.th.Keys == q.th.Keys && q'.seat.Keys == q.seat.Keys
  {
  }

  /** A thread on level `i` is not affected by what happened on the levels above. */
  lemma NotYetRisen(q0: Queues, q: Queues, i: nat, now: nat, threshold: nat, t: nat)
    requires i > 0 && t in q0.th && RisenAt(q0, q, Rises(q0, i - 1, now, threshold, t), now, t)
    ensures t in q.th
    ensures (t in q.seat && q.seat[t] == i && Due(q.th[t], now, threshold)) <==>
      (t in q0.seat && q0.seat[t] == i && Due(q0.th[t], now, threshold))
  {
    hide Waited;
    assert !Rises(q0, i - 1, now, threshold, t) ==> Bare(q.th[t]).last == Bare(q0.th[t]).last;
  }

  lemma RisenTwice(q0: Queues, q: Queues, q': Queues, i: nat, now: nat, threshold: nat, t: nat)
    requires i > 0 && t in q0.th && t in q.th && RisenAt(q0, q, Rises(q0, i - 1, now, threshold, t), now, t)
    requires RisenAt(q, q', t in q.seat && q.seat[t] == i && Due(q.th[t], now, threshold), now, t)
    ensures RisenAt(q0, q', Rises(q0, i, now, threshold, t), now, t)
  {
    hide Due;
    NotYetRisen(q0, q, i, now, threshold, t);
  }

  lemma RisenNext(q0: Queues, q: Queues, q': Queues, i: nat, now: nat, threshold: nat)
    requires Linked(q) && 0 < i < LEVELS == |q.queues| && Risen(q0, q, i - 1, now, threshold)
    requires Aged(q, q', i, |q.queues[i]|, now, threshold)
    ensures Risen(q0, q', i, now, threshold)
  {
    hide Linked, Aged, Due, RisenAt, Rises;
    AgedKeys(q, q', i, |q.queues[i]|, now, threshold);
    forall t | t in q0.th ensures RisenAt(q0, q', Rises(q0, i, now, threshold, t), now, t) {
      LevelRisen(q, q', i, now, threshold, t);
      RisenTwice(q0, q, q', i, now, threshold, t);
    }
  }

  /** The split of a queue depends only on the waiting times in it. */
  lemma {:induction false} SplitSame(th: Threads, th': Threads, s: seq<nat>, now: nat, threshold: nat)
    requires forall t :: t in s ==> t in th && t in th' && th'[t].last == th[t].last
    ensures Old(th', s, now, threshold) == Old(th, s, now, threshold)
    ensures Young(th', s, now, threshold) == Young(th, s, now, threshold)
  {
    if s != [] {
      hide Waited;
      assert s[|s| - 1] in s;
      SplitSame(th, th', s[..|s| - 1], now, threshold);
    }
  }

  lemma LevelSame(q0: Queues, q: Queues, i: nat, now: nat, threshold: nat)
    requires Linked(q0) && 1 <= i < LEVELS == |q0.queues| && Risen(q0, q, i - 1, now, threshold)
    ensures Old(q.th, q0.queues[i], now, threshold) == Old(q0.th, q0.queues[i], now, threshold)
    ensures Young(q.th, q0.queues[i], now, threshold) == Young(q0.th, q0.queues[i], now, threshold)
  {
    hide Old, Young, Due, Linked;
    forall t | t in q0.queues[i] ensures t in q0.th && t in q.th && q.th[t].last == q0.th[t].last {
      InQueue(q0, i, t);
      QueuedIn(q0, i, t);
      assert RisenAt(q0, q, Rises(q0, i - 1, now, threshold, t), now, t);
      assert Bare(q.th[t]).last == Bare(q0.th[t]).last;
    }
    SplitSame(q0.th, q.th, q0.queues[i], now, threshold);
  }

  lemma QueuedIn(q: Queues, i: nat, t: nat)
    requires Linked(q) && i < LEVELS == |q.queues| && t in q.queues[i]
    ensures t in q.th
  {
    assert Chain(q.th, q.heads[i], q.tails[i], q.queues[i]);
  }

  lemma AgedNext(q0: Queues, q: Queues, q': Queues, i: nat, now: nat, threshold: nat)
    requires Linked(q0) && 1 <= i < LEVELS == |q.queues| && Risen(q0, q, i - 1, now, threshold)
    requires AgedUpTo(q0, q, i, now, threshold)
    requires Aged(q, q', i, |q.queues[i]|, now, threshold)
    ensures AgedUpTo(q0, q', i + 1, now, threshold)
  {
    hide Old, Young, Linked, Risen, AgedFields;
    LevelSame(q0, q, i, now, threshold);
    var s: seq<nat> := q.queues[i];
    assert s == Part(q0, i, i, now, threshold) == q0.queues[i];
    assert s[..|s|] == s && s[|s|..] == [];
    var y, o := Young(q0.th, s, now, threshold), Old(q0.th, s, now, threshold);
    assert y + s[|s|..] == y;
    forall p | 0 <= p < LEVELS ensures q'.queues[p] == Part(q0, p, i + 1, now, threshold) {
      assert q.queues[p] == Part(q0, p, i, now, threshold);
      if p == i { assert q'.queues[p] == y; }
    }
  }

  /** The first `n` threads of level `i` were processed. */
  ghost predicate Aged(q0: Queues, q: Queues, i: nat, n: nat, now: nat, threshold: nat) {
    && 1 <= i < LEVELS == |q0.queues| && n <= |q0.queues[i]|
    && var s: seq<nat> := q0.queues[i];
       && q.queues == q0.queues[i := Young(q0.th, s[..n], now,
         threshold) + s[n..]][i - 1 := q0.queues[i - 1] + Old(q0.th, s[..n], now, threshold)]
       && AgedFields(q0, q, Old(q0.th, s[..n], now, threshold), i - 1, now)
  }

  ghost predicate AgedFields(q0: Queues, q: Queues, old_: seq<nat>, p: nat, now: nat) {
    && Promoted(q0.th, q.th, old_, p, now) && q.seat.Keys == q0.seat.Keys
    && (forall t :: t in q0.seat ==> q.seat[t] == if t in old_ then p else q0.seat[t])
  }

  lemma AgedNone(q: Queues, i: nat, now: nat, threshold: nat)
    requires Linked(q) && 1 <= i < LEVELS
    ensures Aged(q, q, i, 0, now, threshold)
  {
    hide Linked;
    LinkedSized(q);
    var s: seq<nat> := q.queues[i];
    assert s[..0] == [];
    assert Young(q.th, s[..0], now, threshold) + s[0..] == s;
    assert q.queues[i - 1] + Old(q.th, s[..0], now, threshold) == q.queues[i - 1];
    assert q.queues[i := s][i - 1 := q.queues[i - 1]] == q.queues;
  }

  lemma HeadOf(q: Queues, i: nat)
    requires Linked(q) && i < LEVELS
    ensures |q.heads| == |q.queues| == LEVELS && q.heads[i] == Ptr(q.queues[i], 0)
  {
    assert Chain(q.th, q.heads[i], q.tails[i], q.queues[i]);
  }

  /** Where the loop stands: at thread `n` of the level, after those that stayed. */
  lemma Place(q0: Queues, q: Queues, i: nat, n: nat, now: nat, threshold: nat)
    requires Linked(q0) && Linked(q) && Aged(q0, q, i, n, now, threshold) && n < |q0.queues[i]|
    ensures var s: seq<nat>, k := q0.queues[i], |Young(q0.th, q0.queues[i][..n], now, threshold)|;
      && |q.queues| == |q.heads| == |q.tails| == LEVELS && k < |q.queues[i]| && q.queues[i][k] == s[n] && s[n] in q.th
        && s[n] in q0.th && s[n] in q0.seat
      && q.th[s[n]].next == Ptr(s, n + 1) && q.th[s[n]].last == q0.th[s[n]].last
      && Last(Young(q0.th, s[..n], now, threshold)) == if k == 0 then NONE else q.queues[i][k - 1]
  {
    hide Old, Young, Linked, RemoveAt;
    LinkedSized(q);
    var s: seq<nat> := q0.queues[i];
    var y := Young(q0.th, s[..n], now, threshold);
    assert q.queues[i] == y + s[n..];
    assert q.queues[i][|y|] == s[n..][0] == s[n];
    PrevIn(q, i, |y|);
    PrevIn(q0, i, n);
    assert Ptr(q.queues[i], |y| + 1) == Ptr(s, n + 1);
    NotBefore(q0, i, n);
    OldYoung(q0.th, s[..n], now, threshold, s[n]);
    assert Bare(q.th[s[n]]) == Bare(q0.th[s[n]]);
  }

  lemma NotBefore(q: Queues, i: nat, n: nat)
    requires Linked(q) && i < LEVELS && |q.queues| == LEVELS && n < |q.queues[i]|
    ensures q.queues[i][n] !in q.queues[i][..n] && q.queues[i][n] in q.seat
  {
    assert Chain(q.th, q.heads[i], q.tails[i], q.queues[i]);
  }

  lemma AgedStay(q0: Queues, q: Queues, i: nat, n: nat, now: nat, threshold: nat)
    requires Aged(q0, q, i, n, now, threshold) && n < |q0.queues[i]|
    requires q0.queues[i][n] in q0.th && !Due(q0.th[q0.queues[i][n]], now, threshold)
    ensures Aged(q0, q, i, n + 1, now, threshold)
    ensures Last(Young(q0.th, q0.queues[i][..n + 1], now, threshold)) == q0.queues[i][n]
  {
    hide Old, Young, AgedFields, Due;
    var s: seq<nat> := q0.queues[i];
    OldYoungNext(q0.th, s, n, now, threshold);
    assert s[n..] == [s[n]] + s[n + 1..];
    assert Young(q0.th, s[..n], now, threshold) + s[n..] == Young(q0.th, s[..n + 1], now, threshold) + s[n + 1..];
    assert Old(q0.th, s[..n + 1], now, threshold) == Old(q0.th, s[..n], now, threshold);
  }

  lemma AgedMove(q0: Queues, q: Queues, q': Queues, i: nat, n: nat, now: nat, threshold: nat)
    requires Aged(q0, q, i, n, now, threshold) && n < |q0.queues[i]| && |q.queues| == LEVELS
    requires q0.queues[i][n] in q0.seat
    requires var s: seq<nat>, k := q0.queues[i], |Young(q0.th, q0.queues[i][..n], now, threshold)|;
      && s[n] in q0.th && Due(q0.th[s[n]], now, threshold) && k < |q.queues[i]| && q.queues[i][k] == s[n]
      && q'.queues == q.queues[i := RemoveAt(q.queues[i], k)][i - 1 := q.queues[i - 1] + [s[n]]]
      && Promoted(q.th, q'.th, [s[n]], i - 1, now) && q'.seat == q.seat[s[n] := i - 1]
    ensures Aged(q0, q', i, n + 1, now, threshold)
    ensures Young(q0.th, q0.queues[i][..n + 1], now, threshold) == Young(q0.th, q0.queues[i][..n], now, threshold)
  {
    hide Old, Young, Due, AgedFields, Promoted;
    var s: seq<nat> := q0.queues[i];
    var y, o := Young(q0.th, s[..n], now, threshold), Old(q0.th, s[..n], now, threshold);
    OldYoungNext(q0.th, s, n, now, threshold);
    assert y + [] == y;
    assert s[n..] == [s[n]] + s[n + 1..];
    assert RemoveAt(y + s[n..], |y|) == y + s[n + 1..];
    assert q0.queues[i - 1] + o + [s[n]] == q0.queues[i - 1] + (o + [s[n]]);
    AgedFieldsMove(q0, q, q', o, s[n], i - 1, now);
  }

  lemma AgedFieldsMove(q0: Queues, q: Queues, q': Queues, o: seq<nat>, t: nat, p: nat, now: nat)
    requires AgedFields(q0, q, o, p, now) && Promoted(q.th, q'.th, [t], p, now) && q'.seat == q.seat[t := p]
    requires t in q0.seat
    ensures AgedFields(q0, q', o + [t], p, now)
  {
    forall x | x in q0.th
      ensures Bare(q'.th[x]) == if x in o + [t] then Bare(q0.th[x]).(priority := p, last := now % U32)
        else Bare(q0.th[x])
    {
      assert x in o + [t] <==> x in o || x == t;
    }
  }

  /** The same threads, up to queue links. */
  ghost predicate SameBare(th: Threads, th': Threads) {
    th'.Keys == th.Keys && forall t :: t in th ==> Bare(th'[t]) == Bare(th[t])
  }

  lemma RemovedFacts(q: Queues, p: nat, k: nat)
    requires p < |q.heads| == |q.tails| == |q.queues| && k < |q.queues[p]| && (k > 0 ==> q.queues[p][k - 1] in q.th)
    ensures var q' := Removed(q, p, k);
      && SameBare(q.th, q'.th) && q'.queues == q.queues[p := RemoveAt(q.queues[p], k)]
        && q'.seat == q.seat - {q.queues[p][k]}
  {
  }

  lemma AppendedFacts(q: Queues, p: nat, t: nat)
    requires p < |q.heads| == |q.tails| == |q.queues| && t in q.th && (q.tails[p] >= 0 ==> q.tails[p] in q.th)
    ensures var q' := Appended(q, p, t);
      && SameBare(q.th, q'.th) && q'.queues == q.queues[p := q.queues[p] + [t]] && q'.seat == q.seat[t := p]
  {
  }

  lemma Restamp(q: Queues, t: nat, p: int, now: nat)
    requires Linked(q) && t in q.th && t !in q.seat
    ensures Linked(q.(th := q.th[t := q.th[t].(priority := p, next := NONE, last := now % U32)]))
  {
    hide Linked;
    FieldsFree(q, q.th[t := q.th[t].(priority := p, next := NONE, last := now % U32)]);
  }

  lemma StampedAll(th0: Threads, th1: Threads, th2: Threads, th3: Threads, t: nat, p: int, now: nat)
    requires t in th1 && SameBare(th0, th1) && th2 == th1[t := th1[t].(priority := p, next := NONE, last := now % U32)]
    requires SameBare(th2, th3)
    ensures Promoted(th0, th3, [t], p, now)
  {
    assert th2.Keys == th1.Keys;
    forall x | x in th0 ensures Bare(th3[x]) == if x in [t] then Bare(th0[x]).(priority := p, last := now % U32)
      else Bare(th0[x]) {
      assert Bare(th3[x]) == Bare(th2[x]);
    }
  }

  lemma LinkedSized(q: Queues)
    requires Linked(q)
    ensures |q.heads| == |q.tails| == |q.queues| == LEVELS
  {
  }
}
