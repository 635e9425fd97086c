/** The whole kernel heap as a value: the words of its pages, the list heads, and ghost
    bookkeeping of slabs, large blocks and live blocks. */
module HeapState {
  import opened Common
  import opened Slab
  import opened HeapLists
  import opened HeapPages

  const MAGIC := 0x4C41_524B
  /** Words of the header of a large block. */
  const LARGE_HEADER := 4

  /** A block handed out: object `i` of the slab in page `g`, or `n` whole pages. */
  datatype Block = Small(c: nat, g: nat, i: nat) | Big(first: nat, n: nat)

  /** The address returned for a block. */
  function Start(b: Block): nat {
    match b
    case Small(c, g, i) => Addr(g, Slot(c, i))
    case Big(f, _) => Addr(f, LARGE_HEADER)
  }

  /** The words its holder may use. */
  function Room(b: Block): int {
    match b
    case Small(c, _, _) => Width(c)
    case Big(_, n) => n * WORDS - LARGE_HEADER
  }

  /** What it counts for in the statistics, in bytes. */
  function Charge(b: Block): nat {
    match b
    case Small(c, _, _) => Size(c)
    case Big(_, n) => n * PAGE
  }

  /** That is what its holder may use, and the header of a large block. */
  lemma ChargeIs(b: Block)
    requires match b case Small(c, _, _) => c < CLASSES case Big(_, n) => n > 0
    ensures Charge(b) == 4 * Room(b) + if Room(b) > 512 then 16 else 0
  {
  }

  datatype Heap = Heap(
    mem: seq<Words>, heads: seq<nat>, lists: seq<seq<nat>>, seat: map<nat, nat>,
    slab: map<nat, nat>, free: map<nat, seq<nat>>, large: map<nat, nat>, owner: map<nat, nat>, live: map<nat, Block>)

  ghost predicate Sized(h: Heap) {
    |h.mem| == HEAP_PAGES && forall g :: 0 <= g < HEAP_PAGES ==> |h.mem[g]| == WORDS
  }

  /** The pages in `slab` are slabs of the class given there, with the free objects `free`. */
  ghost predicate Slabs(h: Heap)
    requires |h.mem| == HEAP_PAGES
  {
    && h.slab.Keys == h.free.Keys
    && (forall g :: g in h.slab ==> g < HEAP_PAGES && SlabOk(h.mem[g], h.slab[g], g, h.free[g]))
  }

  /** The large blocks, by first page, carry their headers. */
  ghost predicate Larges(h: Heap)
    requires Sized(h)
  {
    forall f :: f in h.large ==>
      h.large[f] >= 1 && f + h.large[f] <= HEAP_PAGES && h.mem[f][0] == MAGIC && h.mem[f][1] == h.large[f]
  }

  ghost predicate OwnerOk(h: Heap, g: nat) {
    && g in h.owner && g < HEAP_PAGES
    && if h.owner[g] in h.slab then h.owner[g] == g && g !in h.large
       else h.owner[g] in h.large && h.owner[g] <= g < h.owner[g] + h.large[h.owner[g]]
  }

  ghost predicate Covers(owner: map<nat, nat>, f: nat, n: nat) {
    forall p :: f <= p < f + n ==> p in owner && owner[p] == f
  }

  /** Every page in use belongs to one slab or one large block. */
  ghost predicate Owners(h: Heap) {
    && (forall g :: g in h.owner ==> OwnerOk(h, g))
    && (forall g :: g in h.slab ==> g in h.owner && h.owner[g] == g)
    && (forall f :: f in h.large ==> Covers(h.owner, f, h.large[f]))
  }

  /** The first page of a large block is no slab. */
  lemma LargeNoSlab(h: Heap, f: nat)
    requires Owners(h) && f in h.large && h.large[f] > 0
    ensures f in h.owner && h.owner[f] == f && f !in h.slab
  {
    assert Covers(h.owner, f, h.large[f]);
    assert OwnerOk(h, f);
  }

  /** A block that the heap regards as handed out. */
  ghost predicate Held(h: Heap, b: Block) {
    match b
    case Small(c, g, i) => g in h.slab && h.slab[g] == c && g in h.free && i < Total(c) && i !in h.free[g]
    case Big(f, n) => f in h.large && h.large[f] == n
  }

  /** `live` lists exactly the blocks handed out, by address. */
  ghost predicate Lives(h: Heap) {
    && (forall a :: a in h.live ==> a == Start(h.live[a]) && Held(h, h.live[a]))
    && (forall b: Block :: Held(h, b) ==> Start(b) in h.live && h.live[Start(b)] == b)
  }

  ghost predicate Core(h: Heap) {
    Sized(h) && Chained(h.mem, h.heads, h.lists, h.seat) && Slabs(h) && Larges(h) && Owners(h) && Lives(h)
  }

  /** Which list a slab belongs on. */
  predicate KindOk(kind: nat, count: nat, total: nat) {
    if kind == PARTIAL then 0 < count < total else if kind == FULL then count == 0 else count == total
  }

  ghost predicate RankOk(h: Heap, g: nat) {
    g in h.seat && g in h.slab && g in h.free && h.seat[g] / 3 == h.slab[g]
      && KindOk(h.seat[g] % 3, |h.free[g]|, Total(h.slab[g]))
  }

  /** Between operations: every slab is on exactly the list its free count calls for. */
  ghost predicate Settled(h: Heap) {
    Core(h) && h.seat.Keys == h.slab.Keys && forall g :: g in h.slab ==> RankOk(h, g)
  }

  ghost predicate OthersRanked(h: Heap, x: nat) {
    forall g :: g in h.slab && g != x ==> RankOk(h, g)
  }

  /** The slab `x` may be on the wrong list of its class. */
  ghost predicate Open(h: Heap, x: nat) {
    Core(h) && h.seat.Keys == h.slab.Keys && x in h.slab && h.seat[x] / 3 == h.slab[x] && OthersRanked(h, x)
  }

  /** The slab `x` is on no list. */
  ghost predicate Loose(h: Heap, x: nat) {
    Core(h) && h.seat.Keys == h.slab.Keys - {x} && x in h.slab && OthersRanked(h, x)
  }

  lemma RanksStay(h: Heap, h': Heap, x: nat)
    requires OthersRanked(h, x) && (forall g :: g in h'.slab && g != x ==> g in h.slab && h'.slab[g] == h.slab[g])
    requires forall g :: g in h.seat && g != x ==> g in h'.seat && h'.seat[g] == h.seat[g]
    requires forall g :: g in h.free && g != x ==> g in h'.free && h'.free[g] == h.free[g]
    ensures OthersRanked(h', x)
  {
    forall g | g in h'.slab && g != x ensures RankOk(h', g) {
      assert RankOk(h, g);
    }
  }

  lemma SettledOpen(h: Heap, x: nat)
    requires Settled(h) && x in h.slab
    ensures Open(h, x)
  {
    hide Core;
    assert RankOk(h, x);
  }

  lemma OpenSettled(h: Heap, x: nat)
    requires Open(h, x) && RankOk(h, x)
    ensures Settled(h)
  {
    hide Core;
  }

  /** Changing NEXT words of slabs harms no slab and no large block. */
  lemma NextKeeps(h: Heap, h': Heap, gs: set<nat>)
    requires Sized(h) && Slabs(h) && Larges(h) && Owners(h) && NextOnly(h.mem, h'.mem, gs)
    requires h'.slab == h.slab && h'.free == h.free && h'.large == h.large && forall g :: g in gs ==> g in h.slab
    ensures Sized(h') && Slabs(h') && Larges(h')
  {
    assert Sized(h');
    assert Slabs(h') by {
      hide Larges, Owners, SlabOk;
      forall g | g in h.slab ensures SlabOk(h'.mem[g], h'.slab[g], g, h'.free[g]) {
        NextSlab(h.mem[g], h'.mem[g], h.slab[g], g, h.free[g]);
      }
    }
    assert Larges(h') by {
      hide Slabs;
      forall f | f in h.large ensures h'.mem[f] == h.mem[f] {
        LargeNoSlab(h, f);
      }
    }
  }

  lemma NextSlab(w: Words, w': Words, c: nat, g: nat, f: seq<nat>)
    requires SlabOk(w, c, g, f) && |w'| == |w| && forall k :: 1 <= k < |w| ==> w'[k] == w[k]
    ensures SlabOk(w', c, g, f)
  {
    hide Slot, Total, Width, Addr;
    forall k | 0 <= k < |f| ensures Slot(c, f[k]) < WORDS && w'[Slot(c, f[k])] == w[Slot(c, f[k])] { Slots(c, f[k]); }
  }

  ghost function CutH(h: Heap, q: nat, k: nat): Heap
    requires Core(h) && q < QUEUES && |h.lists| == QUEUES == |h.heads| && k < |h.lists[q]|
    requires (k > 0 ==> h.lists[q][k - 1] < HEAP_PAGES)
  {
    var s: seq<nat> := h.lists[q];
    h.(mem := CutMem(h.mem, s, k), heads := CutHeads(h.mem, h.heads, s, q, k),
       lists := h.lists[q := RemoveAt(s, k)], seat := h.seat - {s[k]})
  }

  lemma CutCore(h: Heap, q: nat, k: nat)
    requires Core(h) && h.seat.Keys == h.slab.Keys && q < QUEUES && |h.lists| == QUEUES == |h.heads| && k < |h.lists[q]|
    ensures (k > 0 ==> h.lists[q][k - 1] < HEAP_PAGES) && Core(CutH(h, q, k))
  {
    hide Chained, Slabs, Larges, Owners, Lives, NextOnly, CutMem, CutHeads, RemoveAt;
    Cut(h.mem, h.heads, h.lists, h.seat, q, k);
    NextKeeps(h, CutH(h, q, k), if k == 0 then {} else {h.lists[q][k - 1]});
    CutRest(h, CutH(h, q, k));
  }

  /** The slab `x`, entry `k` of its list, leaves the list. */
  lemma CutLoose(h: Heap, x: nat, q: nat, k: nat)
    requires Open(h, x) && q < QUEUES && |h.lists| == QUEUES == |h.heads| && k < |h.lists[q]| && h.lists[q][k] == x
    ensures (k > 0 ==> h.lists[q][k - 1] < HEAP_PAGES) && Loose(CutH(h, q, k), x)
  {
    hide Core, CutMem, CutHeads, RemoveAt, OthersRanked;
    CutCore(h, q, k);
    RanksStay(h, CutH(h, q, k), x);
  }

  lemma CutRest(h: Heap, h': Heap)
    requires Owners(h) && Lives(h) && h'.slab == h.slab && h'.free == h.free && h'.large == h.large
    requires h'.owner == h.owner && h'.live == h.live
    ensures Owners(h') && Lives(h')
  {
    forall g | g in h'.owner ensures OwnerOk(h', g) { assert OwnerOk(h, g); }
    assert forall b: Block :: Held(h', b) <==> Held(h, b) by { hide Total; }
    hide Held, Start, OwnerOk;
  }

  ghost function LinkH(h: Heap, q: nat, g: nat): Heap
    requires g < |h.mem| && |h.mem[g]| == WORDS && q < |h.heads| == |h.lists|
  {
    h.(mem := Put(h.mem, g, NEXT, h.heads[q]), heads := h.heads[q := Addr(g, 0)],
       lists := h.lists[q := [g] + h.lists[q]], seat := h.seat[g := q])
  }

  /** The slab `x` enters a list of its class. */
  lemma LinkOpen(h: Heap, x: nat, q: nat)
    requires Loose(h, x) && q < QUEUES && q / 3 == h.slab[x] && x < HEAP_PAGES && |h.heads| == |h.lists| == QUEUES
    ensures Open(LinkH(h, q, x), x)
  {
    hide Chained, Slabs, Larges, Owners, Lives, NextOnly, OthersRanked;
    Linked(h.mem, h.heads, h.lists, h.seat, q, x);
    var h' := LinkH(h, q, x);
    NextKeeps(h, h', {x});
    CutRest(h, h');
    RanksStay(h, h', x);
  }
}
