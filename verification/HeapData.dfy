/** The contents of blocks: where their words are, that no two blocks share one, and that the
    allocator's own steps leave them alone. */
module HeapData {
  import opened Common
  import opened Slab
  import opened HeapLists
  import opened HeapPages
  import opened HeapState
  import opened HeapSteps

  /** The page and word of word `k` of a block. */
  function Spot(b: Block, k: nat): (nat, nat) {
    match b
    case Small(c, g, i) => (g, Slot(c, i) + k)
    case Big(f, _) => (f + (LARGE_HEADER + k) / WORDS, (LARGE_HEADER + k) % WORDS)
  }

  function WordAt(mem: seq<Words>, b: Block, k: nat): nat {
    var (p, w) := Spot(b, k);
    if p < |mem| && w < |mem[p]| then mem[p][w] else 0
  }

  /** The words of a block lie in its own pages and outside all headers. */
  lemma SpotOwned(h: Heap, b: Block, k: nat)
    requires Owners(h) && Nonempty(h) && Held(h, b) && k < Room(b)
    ensures var (p, w) := Spot(b, k);
      && p in h.owner && p < HEAP_PAGES && w < WORDS
      && (b.Small? ==> p == b.g && p in h.slab && HEADER <= Slot(b.c, b.i) <= w < Slot(b.c, b.i) + Width(b.c))
      && (b.Big? ==> p !in h.slab && h.owner[p] == b.first && (p == b.first ==> w >= LARGE_HEADER))
  {
    var (p, w) := Spot(b, k);
    if b.Small? {
      Slots(b.c, b.i);
    } else {
      BigSpot(h, b.first, b.n, k);
    }
  }

  lemma BigSpot(h: Heap, f: nat, n: nat, k: nat)
    requires Owners(h) && f in h.large && h.large[f] == n > 0 && k < n * WORDS - LARGE_HEADER
    ensures var p := f + (LARGE_HEADER + k) / WORDS;
      p in h.owner && p < HEAP_PAGES && p !in h.slab && h.owner[p] == f
  {
    var p := f + (LARGE_HEADER + k) / WORDS;
    LargeNoSlab(h, f);
    assert Covers(h.owner, f, n);
    assert f <= p < f + n;
    assert OwnerOk(h, p);
  }

  /** Different blocks have no word in common. */
  lemma Apart(h: Heap, b: Block, k: nat, b': Block, k': nat)
    requires Owners(h) && Nonempty(h) && Held(h, b) && Held(h, b') && k < Room(b) && k' < Room(b')
    requires Spot(b, k) == Spot(b', k')
    ensures b == b' && k == k'
  {
    hide Owners, Nonempty, Total;
    SpotOwned(h, b, k);
    SpotOwned(h, b', k');
    if b.Small? && b'.Small? {
      if b.i < b'.i { SlotsApart(b.c, b.i, b'.i); }
      if b'.i < b.i { SlotsApart(b.c, b'.i, b.i); }
    }
  }

  /** The blocks in `m` have the same contents in both memories. */
  ghost predicate Keeps(m: map<nat, Block>, mem: seq<Words>, mem': seq<Words>) {
    forall a, k: nat :: a in m && k < Room(m[a]) ==> WordAt(mem', m[a], k) == WordAt(mem, m[a], k)
  }

  lemma KeepsTrans(m: map<nat, Block>, mem: seq<Words>, mem1: seq<Words>, mem2: seq<Words>)
    requires Keeps(m, mem, mem1) && Keeps(m, mem1, mem2)
    ensures Keeps(m, mem, mem2)
  {
    hide WordAt, Room;
  }

  /** All blocks of `m` are handed out. */
  ghost predicate AllHeld(h: Heap, m: map<nat, Block>) {
    forall a :: a in m ==> Held(h, m[a])
  }

  lemma LivesHeld(h: Heap)
    requires Lives(h)
    ensures AllHeld(h, h.live)
  {
    hide Held, Start;
  }

  /** A change to headers of slabs only. */
  lemma HeadersOnly(h: Heap, m: map<nat, Block>, mem': seq<Words>)
    requires Owners(h) && Nonempty(h) && AllHeld(h, m) && Sized(h) && |mem'| == |h.mem|
    requires forall p, w :: 0 <= p < |h.mem| && 0 <= w < WORDS && (p !in h.slab || w >= HEADER) ==>
      |mem'[p]| == WORDS && mem'[p][w] == h.mem[p][w]
    ensures Keeps(m, h.mem, mem')
  {
    hide Owners, Nonempty, Slot, Width, Held;
    forall a, k: nat | a in m && k < Room(m[a]) ensures WordAt(mem', m[a], k) == WordAt(h.mem, m[a], k) {
      SpotOwned(h, m[a], k);
    }
  }

  /** A change to one page that no block owns. */
  lemma FreshPage(h: Heap, m: map<nat, Block>, mem': seq<Words>, g: nat)
    requires Owners(h) && Nonempty(h) && AllHeld(h, m) && Sized(h) && |mem'| == |h.mem| && g !in h.owner
    requires forall p :: 0 <= p < |h.mem| && p != g ==> mem'[p] == h.mem[p]
    ensures Keeps(m, h.mem, mem')
  {
    hide Owners, Nonempty, Slot, Width, Held;
    forall a, k: nat | a in m && k < Room(m[a]) ensures WordAt(mem', m[a], k) == WordAt(h.mem, m[a], k) {
      SpotOwned(h, m[a], k);
    }
  }

  /** A change to one word of a block. */
  lemma BlockWord(h: Heap, b: Block, k: nat, x: nat, m: map<nat, Block>)
    requires Owners(h) && Nonempty(h) && Sized(h) && Held(h, b) && k < Room(b) && AllHeld(h, m)
    ensures var (p, w) := Spot(b, k);
      && p < HEAP_PAGES && w < WORDS
      && forall a, n: nat :: a in m && n < Room(m[a]) ==>
           WordAt(Put(h.mem, p, w, x), m[a], n) == if m[a] == b && n == k then x else WordAt(h.mem, m[a], n)
  {
    hide Owners, Nonempty, Slot, Width, Held;
    SpotOwned(h, b, k);
    var (p, w) := Spot(b, k);
    forall a, n: nat | a in m && n < Room(m[a])
      ensures WordAt(Put(h.mem, p, w, x), m[a], n) == if m[a] == b && n == k then x else WordAt(h.mem, m[a], n)
    {
      SpotOwned(h, m[a], n);
      if Spot(m[a], n) == Spot(b, k) { Apart(h, m[a], n, b, k); }
    }
  }

  /** Moving slabs between lists touches NEXT words only. */
  lemma NextKeepsData(h: Heap, mem': seq<Words>, gs: set<nat>)
    requires Core(h) && NextOnly(h.mem, mem', gs) && forall g :: g in gs ==> g in h.slab
    ensures Keeps(h.live, h.mem, mem')
  {
    hide Chained, Slabs, Owners, Lives;
    LivesHeld(h);
    LargeFacts(h);
    HeadersOnly(h, h.live, mem');
  }

  lemma CutKeeps(h: Heap, q: nat, k: nat)
    requires Core(h) && h.seat.Keys == h.slab.Keys && q < QUEUES && |h.lists| == QUEUES == |h.heads| && k < |h.lists[q]|
    ensures (k > 0 ==> h.lists[q][k - 1] < HEAP_PAGES) && Keeps(h.live, h.mem, CutH(h, q, k).mem)
  {
    hide Slabs, Owners, Lives, Larges, Keeps, Chained, NextOnly, CutMem, CutHeads, RemoveAt;
    Cut(h.mem, h.heads, h.lists, h.seat, q, k);
    NextKeepsData(h, CutH(h, q, k).mem, if k == 0 then {} else {h.lists[q][k - 1]});
  }

  lemma LinkKeeps(h: Heap, q: nat, g: nat)
    requires Core(h) && g in h.slab && g < HEAP_PAGES && q < QUEUES && |h.heads| == |h.lists| == QUEUES
    ensures Keeps(h.live, h.mem, LinkH(h, q, g).mem)
  {
    hide Slabs, Owners, Lives, Larges, Keeps, Chained;
    NextKeepsData(h, LinkH(h, q, g).mem, {g});
  }
}
