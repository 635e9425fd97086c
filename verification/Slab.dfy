/** One slab: a page that starts with a header of five words, followed by objects of one size.
    Free objects are threaded into a list through their first words. */
module Slab {
  import opened Common

  const HEAP := 0xE000_0000
  const PAGE := 4096
  const WORDS := 1024
  const CLASSES := 9
  /** Words of the header: next slab, first free object, free count, object count, object size. */
  const NEXT := 0
  const FREE := 1
  const COUNT := 2
  const TOTAL := 3
  const SIZE := 4
  const HEADER := 5

  type Words = seq<nat>

  /** Words per object of a size class. */
  function Width(c: nat): nat {
    match c
    case 0 => 2 case 1 => 4 case 2 => 8 case 3 => 16 case 4 => 32
    case 5 => 64 case 6 => 128 case 7 => 256 case _ => 512
  }

  /** Bytes per object. */
  function Size(c: nat): nat {
    4 * Width(c)
  }

  /** Objects per slab. */
  function Total(c: nat): nat {
    (PAGE - 4 * HEADER) / Size(c)
  }

  /** The address of word `k` of heap page `g`. */
  function Addr(g: nat, k: nat): nat {
    HEAP + g * PAGE + 4 * k
  }

  /** The first word of object `i`. */
  function Slot(c: nat, i: nat): nat {
    HEADER + i * Width(c)
  }

  /** Objects lie in the page and do not overlap. */
  lemma Slots(c: nat, i: nat)
    requires i < Total(c)
    ensures HEADER <= Slot(c, i) < Slot(c, i) + Width(c) <= WORDS
  {
    match c
    case 0 => case 1 => case 2 => case 3 => case 4 => case 5 => case 6 => case 7 => case _ =>
  }

  /** A slab has every object that fits in its page, and no other. */
  lemma SlotsFit(c: nat, i: nat)
    ensures i < Total(c) <==> Slot(c, i) + Width(c) <= WORDS
  {
    match c
    case 0 => case 1 => case 2 => case 3 => case 4 => case 5 => case 6 => case 7 => case _ =>
  }

  lemma SlotsApart(c: nat, i: nat, j: nat)
    requires i < j
    ensures Slot(c, i) < Slot(c, i) + Width(c) <= Slot(c, j)
  {
    match c
    case 0 => case 1 => case 2 => case 3 => case 4 => case 5 => case 6 => case 7 => case _ =>
  }

  lemma SlotNext(c: nat, i: nat)
    ensures Slot(c, i + 1) == Slot(c, i) + Width(c) && Slot(c, 0) == HEADER
  {
    match c
    case 0 => case 1 => case 2 => case 3 => case 4 => case 5 => case 6 => case 7 => case _ =>
  }

  /** The pointer to entry `k` of the free list `f`, null after the last. */
  function Link(c: nat, g: nat, f: seq<nat>, k: nat): nat {
    if k < |f| then Addr(g, Slot(c, f[k])) else 0
  }

  ghost predicate FreeOk(c: nat, f: seq<nat>) {
    Distinct(f) && forall k :: 0 <= k < |f| ==> f[k] < Total(c)
  }

  /** The words of page `g` are a slab of class `c` whose free objects are `f`, in list order. */
  ghost predicate SlabOk(w: Words, c: nat, g: nat, f: seq<nat>) {
    && |w| == WORDS && c < CLASSES && FreeOk(c, f)
    && w[TOTAL] == Total(c) && w[SIZE] == Size(c) && w[COUNT] == |f| && w[FREE] == Link(c, g, f, 0)
    && (forall k :: 0 <= k < |f| ==> Slot(c, f[k]) < WORDS && w[Slot(c, f[k])] == Link(c, g, f, k + 1))
  }

  /** Words outside the header and the free objects do not matter to the slab. */
  lemma Indifferent(w: Words, w': Words, c: nat, g: nat, f: seq<nat>)
    requires SlabOk(w, c, g, f) && |w'| == WORDS
    requires w'[FREE..HEADER] == w[FREE..HEADER]
    requires forall k :: 0 <= k < |f| ==> Slot(c, f[k]) < WORDS && w'[Slot(c, f[k])] == w[Slot(c, f[k])]
    ensures SlabOk(w', c, g, f)
  {
    assert w'[FREE] == w'[FREE..HEADER][0] == w[FREE];
    assert w'[COUNT] == w'[FREE..HEADER][1] == w[COUNT];
    assert w'[TOTAL] == w'[FREE..HEADER][2] == w[TOTAL];
    assert w'[SIZE] == w'[FREE..HEADER][3] == w[SIZE];
  }

  /** slab_alloc's effect. */
  function Popped(w: Words, c: nat, i: nat): Words
    requires |w| == WORDS && Slot(c, i) < WORDS && w[COUNT] > 0
  {
    w[FREE := w[Slot(c, i)]][COUNT := w[COUNT] - 1]
  }

  lemma PoppedOk(w: Words, c: nat, g: nat, f: seq<nat>)
    requires SlabOk(w, c, g, f) && f != []
    ensures f[0] < Total(c) && Slot(c, f[0]) < WORDS && SlabOk(Popped(w, c, f[0]), c, g, f[1..]) && f[0] !in f[1..]
  {
    var w', f' := Popped(w, c, f[0]), f[1..];
    forall k | 0 <= k < |f'| ensures Slot(c, f'[k]) < WORDS && w'[Slot(c, f'[k])] == Link(c, g, f', k + 1) {
      assert f'[k] == f[k + 1];
      Slots(c, f[k + 1]);
      assert Link(c, g, f', k + 1) == Link(c, g, f, k + 2);
    }
    assert Link(c, g, f', 0) == Link(c, g, f, 1);
  }

  /** slab_free's effect. */
  function Pushed(w: Words, c: nat, g: nat, i: nat): Words
    requires |w| == WORDS && Slot(c, i) < WORDS
  {
    w[Slot(c, i) := w[FREE]][FREE := Addr(g, Slot(c, i))][COUNT := w[COUNT] + 1]
  }

  lemma PushedOk(w: Words, c: nat, g: nat, f: seq<nat>, i: nat)
    requires SlabOk(w, c, g, f) && i < Total(c) && i !in f
    ensures Slot(c, i) < WORDS && SlabOk(Pushed(w, c, g, i), c, g, [i] + f)
  {
    hide Slot, Width, Total, Addr;
    Slots(c, i);
    var w', f' := Pushed(w, c, g, i), [i] + f;
    forall k | 0 <= k < |f'| ensures Slot(c, f'[k]) < WORDS && w'[Slot(c, f'[k])] == Link(c, g, f', k + 1) {
      if k > 0 {
        var j := f[k - 1];
        assert f'[k] == j && j != i;
        Slots(c, j);
        if i < j { SlotsApart(c, i, j); } else { SlotsApart(c, j, i); }
        assert Link(c, g, f', k + 1) == Link(c, g, f, k);
      } else {
        assert Link(c, g, f', 1) == Link(c, g, f, 0);
      }
    }
  }

  /** The holder of object `i` may write to any of its words. */
  lemma BodyWrite(w: Words, c: nat, g: nat, f: seq<nat>, i: nat, k: nat, x: nat)
    requires SlabOk(w, c, g, f) && i < Total(c) && i !in f && k < Width(c)
    ensures HEADER <= Slot(c, i) + k < WORDS && SlabOk(w[Slot(c, i) + k := x], c, g, f)
  {
    hide Slot, Total, Addr;
    Slots(c, i);
    var w' := w[Slot(c, i) + k := x];
    forall n | 0 <= n < |f| ensures Slot(c, f[n]) < WORDS && w'[Slot(c, f[n])] == w[Slot(c, f[n])] {
      if i < f[n] { SlotsApart(c, i, f[n]); } else { SlotsApart(c, f[n], i); }
    }
    Indifferent(w, w', c, g, f);
  }

  /** n - 1, ..., 1, 0. */
  function Down(n: nat): (s: seq<nat>)
    ensures |s| == n && forall k :: 0 <= k < n ==> s[k] == n - 1 - k
  {
    if n == 0 then [] else [n - 1] + Down(n - 1)
  }

  /** The pointer to the object before object `i`. */
  function Prior(c: nat, g: nat, i: nat): nat {
    if i == 0 then 0 else Addr(g, Slot(c, i - 1))
  }

  /** The first `i` objects each point to the one before. */
  ghost predicate Threaded(r: Words, w: Words, c: nat, g: nat, i: nat) {
    && |r| == |w| == WORDS && r[..HEADER] == w[..HEADER]
    && (forall k :: 0 <= k < i ==> Slot(c, k) < WORDS && r[Slot(c, k)] == Prior(c, g, k))
  }

  lemma ThreadedNext(r: Words, w: Words, c: nat, g: nat, i: nat)
    requires Threaded(r, w, c, g, i) && i < Total(c)
    ensures Slot(c, i) < WORDS && Threaded(r[Slot(c, i) := Prior(c, g, i)], w, c, g, i + 1)
  {
    hide Slot, Width, Total, Addr, Prior;
    Slots(c, i);
    var r' := r[Slot(c, i) := Prior(c, g, i)];
    forall k | 0 <= k < i ensures Slot(c, k) < WORDS && r'[Slot(c, k)] == r[Slot(c, k)] { SlotsApart(c, k, i); }
  }

  /** The loop of slab_create that threads the objects, the last one first in the list. */
  method Thread(w: Words, c: nat, g: nat) returns (r: Words, first: nat)
    requires |w| == WORDS
    ensures Threaded(r, w, c, g, Total(c)) && first == Prior(c, g, Total(c))
  {
    hide Slot, Width, Total, Addr;
    r, first := w, 0;
    var obj := HEADER;
    var i := 0;
    SlotNext(c, 0);
    while i < Total(c)
      invariant 0 <= i <= Total(c) && obj == Slot(c, i) && Threaded(r, w, c, g, i) && first == Prior(c, g, i)
    {
      ThreadedNext(r, w, c, g, i);
      r := r[obj := first];
      first := Addr(g, obj);
      SlotNext(c, i);
      obj := obj + Width(c);
      i := i + 1;
    }
  }

  lemma ThreadedOk(r: Words, w: Words, c: nat, g: nat)
    requires Threaded(r, w, c, g, Total(c)) && c < CLASSES
    requires w[TOTAL] == Total(c) && w[SIZE] == Size(c) && w[COUNT] == Total(c)
    ensures SlabOk(r[FREE := Prior(c, g, Total(c))], c, g, Down(Total(c)))
  {
    hide Slot, Width, Total, Addr, Down, Size;
    assert r[TOTAL] == r[..HEADER][TOTAL] && r[SIZE] == r[..HEADER][SIZE] && r[COUNT] == r[..HEADER][COUNT];
    var r', f := r[FREE := Prior(c, g, Total(c))], Down(Total(c));
    forall k | 0 <= k < |f| ensures Slot(c, f[k]) < WORDS && r'[Slot(c, f[k])] == Link(c, g, f, k + 1) {
      Slots(c, f[k]);
      assert r[Slot(c, f[k])] == Prior(c, g, f[k]);
    }
  }

  /** slab_create's work on the page: all objects are free. */
  method Format(w: Words, c: nat, g: nat) returns (r: Words)
    requires |w| == WORDS && c < CLASSES
    ensures SlabOk(r, c, g, Down(Total(c))) && r[NEXT] == 0
  {
    hide Slot, Width, Total, Addr, Down, Size, SlabOk;
    r := w[NEXT := 0][SIZE := Size(c)][TOTAL := Total(c)][COUNT := Total(c)];
    ghost var w0 := r;
    var first;
    r, first := Thread(r, c, g);
    ThreadedOk(r, w0, c, g);
    assert r[NEXT] == r[..HEADER][NEXT];
    r := r[FREE := first];
  }
}
