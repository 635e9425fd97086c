/** The lists of slabs: one partial, one full and one empty list per size class, threaded through
    the first words of the slab pages. */
module HeapLists {
  import opened Common
  import opened Slab

  const QUEUES := 27
  const PARTIAL := 0
  const FULL := 1
  const EMPTY := 2

  /** The number of a list. */
  function Queue(c: nat, kind: nat): nat {
    3 * c + kind
  }

  /** The pointer to entry `k` of a list of pages, null after the last. */
  function Ptr(s: seq<nat>, k: nat): nat {
    if k < |s| then Addr(s[k], 0) else 0
  }

  function Next(mem: seq<Words>, g: nat): nat {
    if g < |mem| && |mem[g]| == WORDS then mem[g][NEXT] else 0
  }

  /** The list that starts at `head` consists of the pages `s`. */
  ghost predicate Chain(mem: seq<Words>, head: nat, s: seq<nat>) {
    && head == Ptr(s, 0)
    && (forall k :: 0 <= k < |s| ==> s[k] < |mem| && Next(mem, s[k]) == Ptr(s, k + 1))
  }

  ghost predicate Chains(mem: seq<Words>, heads: seq<nat>, lists: seq<seq<nat>>) {
    && |heads| == |lists| == QUEUES
    && (forall q :: 0 <= q < QUEUES ==> Chain(mem, heads[q], lists[q]) && Distinct(lists[q]))
  }

  /** `seat` says which list each page is on. */
  ghost predicate Seats(lists: seq<seq<nat>>, seat: map<nat, nat>) {
    && |lists| == QUEUES
    && (forall q, k :: 0 <= q < QUEUES && 0 <= k < |lists[q]| ==> lists[q][k] in seat && seat[lists[q][k]] == q)
    && (forall g :: g in seat ==> 0 <= seat[g] < QUEUES && g in lists[seat[g]])
  }

  /** All lists are well formed, and each page is on one of them. */
  ghost predicate Chained(mem: seq<Words>, heads: seq<nat>, lists: seq<seq<nat>>, seat: map<nat, nat>) {
    Chains(mem, heads, lists) && Seats(lists, seat)
  }

  /** Only the NEXT words of pages in `gs` differ. */
  ghost predicate NextOnly(mem: seq<Words>, mem': seq<Words>, gs: set<nat>) {
    && |mem'| == |mem|
    && (forall g :: 0 <= g < |mem| ==> |mem'[g]| == |mem[g]| && (g !in gs ==> mem'[g] == mem[g]))
    && (forall g, k :: 0 <= g < |mem| && 1 <= k < |mem[g]| ==> mem'[g][k] == mem[g][k])
  }

  function Put(mem: seq<Words>, g: nat, k: nat, x: nat): (r: seq<Words>)
    requires g < |mem| && k < |mem[g]|
    ensures |r| == |mem| && |r[g]| == |mem[g]| && forall f :: 0 <= f < |mem| && f != g ==> r[f] == mem[f]
  {
    var w: Words := mem[g][k := x];
    mem[g := w]
  }

  /** A page that is on no list enters list `q` at the front. */
  lemma LinkedAt(mem: seq<Words>, heads: seq<nat>, lists: seq<seq<nat>>, seat: map<nat, nat>, q: nat, g: nat, p: nat)
    requires Chained(mem, heads, lists, seat) && q < QUEUES && g !in seat && g < |mem| && |mem[g]| == WORDS
    requires p < QUEUES
    ensures Chain(Put(mem, g, NEXT, heads[q]), heads[q := Addr(g, 0)][p], lists[q := [g] + lists[q]][p])
    ensures Distinct(lists[q := [g] + lists[q]][p])
  {
    var mem', s := Put(mem, g, NEXT, heads[q]), lists[p];
    forall k | 0 <= k < |s| ensures s[k] != g && Next(mem', s[k]) == Ptr(s, k + 1) {
      assert s[k] in seat;
    }
    if p == q {
      var s' := [g] + s;
      forall k | 0 <= k < |s'| ensures s'[k] < |mem'| && Next(mem', s'[k]) == Ptr(s', k + 1) {
        assert Ptr(s', k + 1) == Ptr(s, k);
      }
    }
  }

  lemma LinkedSeats(lists: seq<seq<nat>>, seat: map<nat, nat>, q: nat, g: nat)
    requires Seats(lists, seat) && q < QUEUES && g !in seat
    ensures Seats(lists[q := [g] + lists[q]], seat[g := q])
  {
    var lists', seat' := lists[q := [g] + lists[q]], seat[g := q];
    forall f | f in seat' ensures 0 <= seat'[f] < QUEUES && f in lists'[seat'[f]] {
      if f == g {
        assert lists'[q][0] == g;
      } else if seat[f] == q {
        var k :| 0 <= k < |lists[q]| && lists[q][k] == f;
        assert lists'[q][k + 1] == f;
      }
    }
    forall p, k | 0 <= p < QUEUES && 0 <= k < |lists'[p]| ensures lists'[p][k] in seat' && seat'[lists'[p][k]] == p {
      assert p == q && k > 0 ==> lists'[p][k] == lists[q][k - 1];
    }
  }

  lemma Linked(mem: seq<Words>, heads: seq<nat>, lists: seq<seq<nat>>, seat: map<nat, nat>, q: nat, g: nat)
    requires Chained(mem, heads, lists, seat) && q < QUEUES && g !in seat && g < |mem| && |mem[g]| == WORDS
    ensures var mem' := Put(mem, g, NEXT, heads[q]);
      && Chained(mem', heads[q := Addr(g, 0)], lists[q := [g] + lists[q]], seat[g := q])
      && NextOnly(mem, mem', {g})
  {
    hide Chain, Seats, Distinct;
    var mem', heads', lists' := Put(mem, g, NEXT, heads[q]), heads[q := Addr(g, 0)], lists[q := [g] + lists[q]];
    forall p | 0 <= p < QUEUES ensures Chain(mem', heads'[p], lists'[p]) && Distinct(lists'[p]) {
      LinkedAt(mem, heads, lists, seat, q, g, p);
    }
    LinkedSeats(lists, seat, q, g);
  }

  /** Memory and heads after entry `k` of list `q` was taken out. */
  function CutMem(mem: seq<Words>, s: seq<nat>, k: nat): seq<Words>
    requires k < |s| && (k > 0 ==> s[k - 1] < |mem| && |mem[s[k - 1]]| == WORDS)
  {
    if k == 0 then mem else Put(mem, s[k - 1], NEXT, Next(mem, s[k]))
  }

  function CutHeads(mem: seq<Words>, heads: seq<nat>, s: seq<nat>, q: nat, k: nat): seq<nat>
    requires k < |s| && q < |heads|
  {
    if k == 0 then heads[q := Next(mem, s[0])] else heads
  }

  lemma CutNext(mem: seq<Words>, s: seq<nat>, k: nat, g: nat)
    requires k < |s| && (k > 0 ==> s[k - 1] < |mem| && |mem[s[k - 1]]| == WORDS)
    ensures |CutMem(mem, s, k)| == |mem|
    ensures Next(CutMem(mem, s, k), g) == if k > 0 && g == s[k - 1] then Next(mem, s[k]) else Next(mem, g)
  {
  }

  /** The other lists do not notice. */
  lemma CutOther(mem: seq<Words>, heads: seq<nat>, lists: seq<seq<nat>>, seat: map<nat, nat>, q: nat, k: nat, p: nat)
    requires Chained(mem, heads, lists, seat) && q < QUEUES && k < |lists[q]| && p < QUEUES && p != q
    requires k > 0 ==> lists[q][k - 1] < |mem| && |mem[lists[q][k - 1]]| == WORDS
    ensures Chain(CutMem(mem, lists[q], k), heads[p], lists[p])
  {
    hide Addr, CutMem, Next;
    var s: seq<nat>, t: seq<nat> := lists[q], lists[p];
    CutNext(mem, s, k, 0);
    forall n | 0 <= n < |t| ensures Next(CutMem(mem, s, k), t[n]) == Ptr(t, n + 1) {
      assert seat[t[n]] == p;
      assert k > 0 ==> seat[s[k - 1]] == q;
      CutNext(mem, s, k, t[n]);
    }
  }

  lemma CutEntry(mem: seq<Words>, head: nat, s: seq<nat>, k: nat, n: nat)
    requires Chain(mem, head, s) && Distinct(s) && k < |s| && n < |s| - 1
    requires k > 0 ==> s[k - 1] < |mem| && |mem[s[k - 1]]| == WORDS
    ensures var r := RemoveAt(s, k); r[n] < |mem| && Next(CutMem(mem, s, k), r[n]) == Ptr(r, n + 1)
  {
    hide Addr, CutMem, Next, RemoveAt;
    var r := RemoveAt(s, k);
    CutNext(mem, s, k, r[n]);
    if n + 1 == k {
      assert r[n] == s[k - 1] && Next(mem, s[k]) == Ptr(s, k + 1);
    } else {
      var j := if n < k then n else n + 1;
      assert r[n] == s[j] && (k > 0 ==> s[j] != s[k - 1]) && Next(mem, s[j]) == Ptr(s, j + 1);
    }
  }

  lemma RemoveDistinct(s: seq<nat>, k: nat)
    requires Distinct(s) && k < |s|
    ensures Distinct(RemoveAt(s, k))
  {
    var r := RemoveAt(s, k);
    forall i, j | 0 <= i < j < |r| ensures r[i] != r[j] {
      var a, b := if i < k then i else i + 1, if j < k then j else j + 1;
      assert r[i] == s[a] && r[j] == s[b];
    }
  }

  lemma CutSame(mem: seq<Words>, head: nat, s: seq<nat>, k: nat)
    requires Chain(mem, head, s) && Distinct(s) && k < |s|
    requires k > 0 ==> s[k - 1] < |mem| && |mem[s[k - 1]]| == WORDS
    ensures Chain(CutMem(mem, s, k), if k == 0 then Next(mem, s[0]) else head, RemoveAt(s, k))
    ensures Distinct(RemoveAt(s, k))
  {
    hide Addr, CutMem, RemoveAt, Next, Distinct;
    var r, mem' := RemoveAt(s, k), CutMem(mem, s, k);
    RemoveDistinct(s, k);
    CutNext(mem, s, k, 0);
    forall n | 0 <= n < |r| ensures r[n] < |mem'| && Next(mem', r[n]) == Ptr(r, n + 1) {
      CutEntry(mem, head, s, k, n);
    }
  }

  lemma CutNextOnly(mem: seq<Words>, s: seq<nat>, k: nat)
    requires k < |s| && (k > 0 ==> s[k - 1] < |mem| && |mem[s[k - 1]]| == WORDS)
    ensures NextOnly(mem, CutMem(mem, s, k), if k == 0 then {} else {s[k - 1]})
  {
  }

  lemma CutSeats(lists: seq<seq<nat>>, seat: map<nat, nat>, q: nat, k: nat)
    requires Seats(lists, seat) && q < QUEUES && k < |lists[q]| && Distinct(lists[q])
    ensures Seats(lists[q := RemoveAt(lists[q], k)], seat - {lists[q][k]})
  {
    var s: seq<nat> := lists[q];
    var lists', seat' := lists[q := RemoveAt(s, k)], seat - {s[k]};
    forall g | g in seat' ensures 0 <= seat'[g] < QUEUES && g in lists'[seat'[g]] {
      if seat[g] == q {
        var n :| 0 <= n < |s| && s[n] == g;
        assert lists'[q][if n < k then n else n - 1] == g;
      }
    }
    forall p, n | 0 <= p < QUEUES && 0 <= n < |lists'[p]| ensures lists'[p][n] in seat' && seat'[lists'[p][n]] == p {
      if p == q {
        var j := if n < k then n else n + 1;
        assert lists'[p][n] == s[j] && s[j] != s[k];
      } else {
        assert seat[lists[p][n]] == p && seat[s[k]] == q;
      }
    }
  }

  /** Entry `k` of list `q` leaves its list. */
  lemma Cut(mem: seq<Words>, heads: seq<nat>, lists: seq<seq<nat>>, seat: map<nat, nat>, q: nat, k: nat)
    requires Chained(mem, heads, lists, seat) && q < QUEUES && k < |lists[q]|
    requires forall g :: 0 <= g < |mem| ==> |mem[g]| == WORDS
    ensures var s: seq<nat> := lists[q];
      && (k > 0 ==> s[k - 1] < |mem| && s[k - 1] in seat && seat[s[k - 1]] == q)
      && Chained(CutMem(mem, s, k), CutHeads(mem, heads, s, q, k), lists[q := RemoveAt(s, k)], seat - {s[k]})
      && NextOnly(mem, CutMem(mem, s, k), if k == 0 then {} else {s[k - 1]})
  {
    hide Chain, Seats, Distinct, CutMem, RemoveAt, NextOnly, CutHeads;
    var s: seq<nat> := lists[q];
    if k > 0 { CutPrev(mem, heads, lists, seat, q, k); }
    CutChains(mem, heads, lists, seat, q, k);
    CutSeats(lists, seat, q, k);
    CutNextOnly(mem, s, k);
  }

  lemma CutChains(mem: seq<Words>, heads: seq<nat>, lists: seq<seq<nat>>, seat: map<nat, nat>, q: nat, k: nat)
    requires Chained(mem, heads, lists, seat) && q < QUEUES && k < |lists[q]|
    requires k > 0 ==> lists[q][k - 1] < |mem| && |mem[lists[q][k - 1]]| == WORDS
    ensures Chains(CutMem(mem, lists[q], k), CutHeads(mem, heads, lists[q], q, k), lists[q := RemoveAt(lists[q], k)])
  {
    hide Chain, Seats, Distinct, CutMem, RemoveAt, Next;
    var s: seq<nat> := lists[q];
    var mem', heads', lists' := CutMem(mem, s, k), CutHeads(mem, heads, s, q, k), lists[q := RemoveAt(s, k)];
    CutSame(mem, heads[q], s, k);
    forall p | 0 <= p < QUEUES ensures Chain(mem', heads'[p], lists'[p]) && Distinct(lists'[p]) {
      if p != q { CutOther(mem, heads, lists, seat, q, k, p); }
    }
  }

  lemma CutPrev(mem: seq<Words>, heads: seq<nat>, lists: seq<seq<nat>>, seat: map<nat, nat>, q: nat, k: nat)
    requires Chained(mem, heads, lists, seat) && 0 <= q < QUEUES && k < |lists[q]| && k > 0
    ensures var s: seq<nat> := lists[q]; s[k - 1] < |mem| && s[k - 1] in seat && seat[s[k - 1]] == q
  {
    assert Chain(mem, heads[q], lists[q]);
  }
}
