/** The ready queues: one singly linked list with head and tail per priority, threaded through the
    threads themselves. Threads are named by numbers, NONE is the null pointer. */
module SchedQueues {
  import opened Common

  const NONE := -1
  const LEVELS := 4
  const MEDIUM := 2
  datatype State = New | Ready | Running | Dead | Blocked

  /** The scheduler's part of a thread: its slice, the ticks used of it, the burst estimate, the
      ticks at which it was queued and is to be woken, and the two list links. */
  datatype Thread = Thread(tid: nat, priority: int, state: State, quantum: nat, passed: nat, estimate: nat,
                           last: nat, wakeup: nat, next: int, nextSleep: int)

  type Threads = map<nat, Thread>

  function Ptr(s: seq<nat>, k: nat): int {
    if k < |s| then s[k] else NONE
  }

  function Last(s: seq<nat>): int {
    if s == [] then NONE else s[|s| - 1]
  }

  function NextOf(th: Threads, t: nat): int {
    if t in th then th[t].next else NONE
  }

  function SetNext(th: Threads, t: nat, n: int): (r: Threads)
    requires t in th
    ensures r.Keys == th.Keys && r[t] == th[t].(next := n) && forall x :: x in th && x != t ==> r[x] == th[x]
  {
    th[t := th[t].(next := n)]
  }

  /** The list from `head` to `tail` is `s`. */
  ghost predicate Chain(th: Threads, head: int, tail: int, s: seq<nat>) {
    && head == Ptr(s, 0) && tail == Last(s) && Distinct(s)
    && (forall k :: 0 <= k < |s| ==> s[k] in th && NextOf(th, s[k]) == Ptr(s, k + 1))
  }

  ghost predicate Chains(th: Threads, heads: seq<int>, tails: seq<int>, queues: seq<seq<nat>>) {
    && |heads| == |tails| == |queues| == LEVELS
    && (forall p :: 0 <= p < LEVELS ==> Chain(th, heads[p], tails[p], queues[p]))
  }

  /** `seat` says on which queue each ready thread is. */
  ghost predicate Seats(queues: seq<seq<nat>>, seat: map<nat, nat>) {
    && |queues| == LEVELS
    && (forall p, k :: 0 <= p < LEVELS && 0 <= k < |queues[p]| ==> queues[p][k] in seat && seat[queues[p][k]] == p)
    && (forall t :: t in seat ==> 0 <= seat[t] < LEVELS && t in queues[seat[t]])
  }

  datatype Queues = Queues(th: Threads, heads: seq<int>, tails: seq<int>, queues: seq<seq<nat>>, seat: map<nat, nat>)

  ghost predicate Linked(q: Queues) {
    Chains(q.th, q.heads, q.tails, q.queues) && Seats(q.queues, q.seat)
  }

  /** Thread `t` goes to the back of queue `p`. */
  function Appended(q: Queues, p: nat, t: nat): Queues
    requires p < |q.heads| == |q.tails| == |q.queues| && t in q.th && (q.tails[p] >= 0 ==> q.tails[p] in q.th)
  {
    var th := SetNext(q.th, t, NONE);
    if q.tails[p] < 0 then
      Queues(th, q.heads[p := t], q.tails[p := t], q.queues[p := q.queues[p] + [t]], q.seat[t := p])
    else
      Queues(SetNext(th, q.tails[p], t), q.heads, q.tails[p := t], q.queues[p := q.queues[p] + [t]], q.seat[t := p])
  }

  lemma TailIn(q: Queues, p: nat)
    requires Linked(q) && p < LEVELS && |q.tails| == LEVELS
    ensures q.tails[p] >= 0 ==>
      q.tails[p] in q.th && |q.queues| == LEVELS && |q.queues[p]| > 0 && q.tails[p] == q.queues[p][|q.queues[p]| - 1]
  {
    assert Chain(q.th, q.heads[p], q.tails[p], q.queues[p]);
  }

  /** A list none of whose links changed. */
  lemma ChainSame(th: Threads, th': Threads, head: int, tail: int, s: seq<nat>)
    requires Chain(th, head, tail, s) && forall k :: 0 <= k < |s| ==>
      s[k] in th' && NextOf(th', s[k]) == NextOf(th, s[k])
    ensures Chain(th', head, tail, s)
  {
    hide NextOf, Distinct;
  }

  lemma ChainAppend(th: Threads, th': Threads, head: int, tail: int, s: seq<nat>, t: nat)
    requires Chain(th, head, tail, s) && t !in s && t in th' && NextOf(th', t) == NONE
    requires s != [] ==> tail in th' && NextOf(th', tail) == t
    requires forall k :: 0 <= k < |s| - 1 ==> s[k] in th' && NextOf(th', s[k]) == NextOf(th, s[k])
    ensures Chain(th', if s == [] then t else head, t, s + [t])
  {
    hide NextOf;
    var s' := s + [t];
    forall k | 0 <= k < |s'| ensures s'[k] in th' && NextOf(th', s'[k]) == Ptr(s', k + 1) {
      if k < |s| - 1 { assert Ptr(s', k + 1) == Ptr(s, k + 1); }
    }
  }

  lemma AppendedSeats(queues: seq<seq<nat>>, seat: map<nat, nat>, p: nat, t: nat)
    requires Seats(queues, seat) && p < LEVELS && t !in seat
    ensures Seats(queues[p := queues[p] + [t]], seat[t := p])
  {
    var queues', seat' := queues[p := queues[p] + [t]], seat[t := p];
    forall x | x in seat' ensures 0 <= seat'[x] < LEVELS && x in queues'[seat'[x]] {
      if x == t {
        assert queues'[p][|queues[p]|] == t;
      } else if seat[x] == p {
        var k :| 0 <= k < |queues[p]| && queues[p][k] == x;
        assert queues'[p][k] == x;
      }
    }
  }

  lemma AppendedAt(q: Queues, p: nat, t: nat, r: nat)
    requires Linked(q) && p < LEVELS && r < LEVELS && t in q.th && t !in q.seat
    requires |q.heads| == |q.tails| == |q.queues| == LEVELS
    requires q.tails[p] >= 0 ==> q.tails[p] in q.th
    ensures var q' := Appended(q, p, t); Chain(q'.th, q'.heads[r], q'.tails[r], q'.queues[r])
  {
    hide Distinct;
    var q', s := Appended(q, p, t), q.queues[r];
    assert Chain(q.th, q.heads[r], q.tails[r], s);
    TailIn(q, p);
    forall k | 0 <= k < |s| ensures s[k] != t && (r != p ==> s[k] != q.tails[p]) {
      assert s[k] in q.seat && q.seat[s[k]] == r;
    }
    if r == p {
      assert Chain(q.th, q.heads[p], q.tails[p], q.queues[p]);
      forall k | 0 <= k < |s| - 1 ensures s[k] != q.tails[p] { LastDiffers(s, k); }
      ChainAppend(q.th, q'.th, q.heads[p], q.tails[p], s, t);
    } else {
      ChainSame(q.th, q'.th, q.heads[r], q.tails[r], s);
    }
  }

  lemma LastDiffers(s: seq<nat>, k: nat)
    requires Distinct(s) && k < |s| - 1
    ensures s[k] != Last(s)
  {
  }

  lemma AppendedLinked(q: Queues, p: nat, t: nat)
    requires Linked(q) && p < LEVELS && t in q.th && t !in q.seat
    ensures |q.heads| == |q.tails| == |q.queues| == LEVELS && (q.tails[p] >= 0 ==> q.tails[p] in q.th)
    ensures Linked(Appended(q, p, t))
  {
    hide Chain, Seats;
    TailIn(q, p);
    var q' := Appended(q, p, t);
    forall r | 0 <= r < LEVELS ensures Chain(q'.th, q'.heads[r], q'.tails[r], q'.queues[r]) { AppendedAt(q, p, t, r); }
    AppendedSeats(q.queues, q.seat, p, t);
  }

  /** Entry `k` of queue `p` is taken out; its own link is left as it was. */
  function Removed(q: Queues, p: nat, k: nat): Queues
    requires p < |q.heads| == |q.tails| == |q.queues| && k < |q.queues[p]| && (k > 0 ==> q.queues[p][k - 1] in q.th)
  {
    var s: seq<nat> := q.queues[p];
    var t: nat := s[k];
    var prev: int := if k == 0 then NONE else s[k - 1];
    Queues(if k == 0 then q.th else SetNext(q.th, s[k - 1], NextOf(q.th, t)),
           if k == 0 then q.heads[p := NextOf(q.th, t)] else q.heads,
           if q.tails[p] == t then q.tails[p := prev] else q.tails,
           q.queues[p := RemoveAt(s, k)], q.seat - {t})
  }

  lemma PrevIn(q: Queues, p: nat, k: nat)
    requires Linked(q) && p < LEVELS && |q.queues| == LEVELS && k < |q.queues[p]|
    ensures q.queues[p][k] in q.th && (k > 0 ==> q.queues[p][k - 1] in q.th)
    ensures NextOf(q.th, q.queues[p][k]) == Ptr(q.queues[p], k + 1)
    ensures q.tails[p] == q.queues[p][k] <==> k == |q.queues[p]| - 1
    ensures q.heads[p] == q.queues[p][0]
  {
    assert Chain(q.th, q.heads[p], q.tails[p], q.queues[p]);
  }

  lemma RemoveDistinct(s: seq<nat>, k: nat)
    requires Distinct(s) && k < |s|
    ensures Distinct(RemoveAt(s, k))
  {
    var r := RemoveAt(s, k);
    forall i, j | 0 <= i < j < |r| ensures r[i] != r[j] {
      var a, b := if i < k then i else i + 1, if j < k then j else j + 1;
      assert r[i] == s[a] && r[j] == s[b];
    }
  }

  /** The links after entry `k` of `s` was bypassed. */
  ghost predicate Bypassed(th: Threads, th': Threads, s: seq<nat>, k: nat)
    requires k < |s|
  {
    forall j :: 0 <= j < |s| ==>
      s[j] in th' && NextOf(th', s[j]) == if j + 1 == k then NextOf(th, s[k]) else NextOf(th, s[j])
  }

  lemma RemoveEntry(th: Threads, th': Threads, head: int, tail: int, s: seq<nat>, k: nat, n: nat)
    requires Chain(th, head, tail, s) && k < |s| && n < |s| - 1 && Bypassed(th, th', s, k)
    ensures var r := RemoveAt(s, k); r[n] in th' && NextOf(th', r[n]) == Ptr(r, n + 1)
  {
    hide NextOf, RemoveAt, Distinct;
    var r := RemoveAt(s, k);
    var j := if n < k then n else n + 1;
    assert r[n] == s[j];
    if n + 1 == k {
      assert NextOf(th, s[k]) == Ptr(s, k + 1);
    } else {
      assert NextOf(th, s[j]) == Ptr(s, j + 1);
    }
  }

  lemma ChainRemove(th: Threads, th': Threads, head: int, tail: int, s: seq<nat>, k: nat)
    requires Chain(th, head, tail, s) && k < |s| && Bypassed(th, th', s, k)
    ensures Chain(th', if k == 0 then NextOf(th, s[0]) else head, if k == |s| - 1
      then (if k == 0 then NONE else s[k - 1]) else tail, RemoveAt(s, k))
  {
    hide NextOf, RemoveAt, Bypassed;
    var r := RemoveAt(s, k);
    RemoveDistinct(s, k);
    hide Distinct;
    forall n | 0 <= n < |r| ensures r[n] in th' && NextOf(th', r[n]) == Ptr(r, n + 1) {
      RemoveEntry(th, th', head, tail, s, k, n);
    }
    assert k == 0 ==> NextOf(th, s[0]) == Ptr(s, 1);
  }

  lemma RemovedSeats(queues: seq<seq<nat>>, seat: map<nat, nat>, p: nat, k: nat)
    requires Seats(queues, seat) && p < LEVELS && k < |queues[p]| && Distinct(queues[p])
    ensures Seats(queues[p := RemoveAt(queues[p], k)], seat - {queues[p][k]})
  {
    var s: seq<nat> := queues[p];
    var queues', seat' := queues[p := RemoveAt(s, k)], seat - {s[k]};
    forall x | x in seat' ensures 0 <= seat'[x] < LEVELS && x in queues'[seat'[x]] {
      if seat[x] == p {
        var n :| 0 <= n < |s| && s[n] == x;
        assert queues'[p][if n < k then n else n - 1] == x;
      }
    }
    forall r, n | 0 <= r < LEVELS && 0 <= n < |queues'[r]| ensures queues'[r][n] in seat' && seat'[queues'[r][n]] == r {
      if r == p {
        var j := if n < k then n else n + 1;
        assert queues'[r][n] == s[j] && s[j] != s[k];
      } else {
        assert seat[queues[r][n]] == r && seat[s[k]] == p;
      }
    }
  }

  lemma RemovedOther(q: Queues, p: nat, k: nat, r: nat)
    requires Linked(q) && p < LEVELS && r < LEVELS && r != p && |q.heads| == |q.tails| == |q.queues| == LEVELS
    requires k < |q.queues[p]|
    requires k > 0 ==> q.queues[p][k - 1] in q.th
    ensures Chain(Removed(q, p, k).th, q.heads[r], q.tails[r], q.queues[r])
  {
    hide Distinct, RemoveAt;
    var th', s := Removed(q, p, k).th, q.queues[r];
    assert Chain(q.th, q.heads[r], q.tails[r], s);
    forall n | 0 <= n < |s| ensures s[n] in th' && NextOf(th', s[n]) == NextOf(q.th, s[n]) {
      assert q.seat[s[n]] == r;
      assert k > 0 ==> q.seat[q.queues[p][k - 1]] == p;
    }
    ChainSame(q.th, th', q.heads[r], q.tails[r], s);
  }

  lemma RemovedSame(q: Queues, p: nat, k: nat)
    requires Linked(q) && p < LEVELS && |q.heads| == |q.tails| == |q.queues| == LEVELS && k < |q.queues[p]|
    requires k > 0 ==> q.queues[p][k - 1] in q.th
    ensures var q' := Removed(q, p, k); Chain(q'.th, q'.heads[p], q'.tails[p], q'.queues[p])
  {
    PrevIn(q, p, k);
    var s: seq<nat> := q.queues[p];
    assert Chain(q.th, q.heads[p], q.tails[p], s);
    BypassedBy(q.th, s, k);
    hide Chain, RemoveAt, Bypassed, Seats;
    ChainRemove(q.th, Removed(q, p, k).th, q.heads[p], q.tails[p], s, k);
  }

  lemma BypassedBy(th: Threads, s: seq<nat>, k: nat)
    requires k < |s| && Distinct(s) && forall j :: 0 <= j < |s| ==> s[j] in th
    ensures Bypassed(th, if k == 0 then th else SetNext(th, s[k - 1], NextOf(th, s[k])), s, k)
  {
  }

  lemma RemovedLinked(q: Queues, p: nat, k: nat)
    requires Linked(q) && p < LEVELS && |q.queues| == LEVELS && k < |q.queues[p]|
    ensures |q.heads| == |q.tails| == LEVELS && (k > 0 ==> q.queues[p][k - 1] in q.th) && Linked(Removed(q, p, k))
  {
    assert Distinct(q.queues[p]) by { assert Chain(q.th, q.heads[p], q.tails[p], q.queues[p]); }
    hide Chain, Seats, Distinct, RemoveAt;
    PrevIn(q, p, k);
    var q' := Removed(q, p, k);
    forall r | 0 <= r < LEVELS ensures Chain(q'.th, q'.heads[r], q'.tails[r], q'.queues[r]) {
      if r == p { RemovedSame(q, p, k); } else { RemovedOther(q, p, k, r); }
    }
    RemovedSeats(q.queues, q.seat, p, k);
  }

  /** Fields other than the links of queued threads do not matter. */
  lemma FieldsFree(q: Queues, th': Threads)
    requires Linked(q) && forall t :: t in q.seat && t in q.th ==> t in th' && th'[t].next == q.th[t].next
    ensures Linked(q.(th := th'))
  {
    forall p | 0 <= p < LEVELS ensures Chain(th', q.heads[p], q.tails[p], q.queues[p]) {
      hide Distinct;
      var s := q.queues[p];
      assert Chain(q.th, q.heads[p], q.tails[p], s);
      forall k | 0 <= k < |s| ensures s[k] in th' && NextOf(th', s[k]) == NextOf(q.th, s[k]) { assert s[k] in q.seat; }
      ChainSame(q.th, th', q.heads[p], q.tails[p], s);
    }
    hide Chain, Seats;
  }
}
