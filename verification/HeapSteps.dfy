/** The steps of the allocator on the heap as a value, and what each of them keeps. */
module HeapSteps {
  import opened Common
  import opened Slab
  import opened HeapLists
  import opened HeapPages
  import opened HeapState

  lemma AddrInjective(g: nat, k: nat, g': nat, k': nat)
    requires k < WORDS && k' < WORDS && Addr(g, k) == Addr(g', k')
    ensures g == g' && k == k'
  {
  }

  /** Two blocks handed out have different addresses. */
  lemma StartInjective(h: Heap, b: Block, b': Block)
    requires Owners(h) && Held(h, b) && Held(h, b') && (b.Big? ==> b.n > 0) && (b'.Big? ==> b'.n > 0)
    requires Start(b) == Start(b')
    ensures b == b'
  {
    hide Slot, Total, Width, Addr;
    var (g, k) := Place(h, b);
    var (g', k') := Place(h, b');
    AddrInjective(g, k, g', k');
    if b.Small? && b'.Small? {
      if b.i < b'.i { SlotsApart(b.c, b.i, b'.i); }
      if b'.i < b.i { SlotsApart(b.c, b'.i, b.i); }
    }
  }

  /** The page and the word where a block starts. */
  ghost function Place(h: Heap, b: Block): (r: (nat, nat))
    requires Owners(h) && Held(h, b) && (b.Big? ==> b.n > 0)
    ensures Start(b) == Addr(r.0, r.1) && r.1 < WORDS && r.0 in h.owner && h.owner[r.0] == r.0
    ensures b.Small? ==> r == (b.g, Slot(b.c, b.i)) && r.1 >= HEADER && r.0 in h.slab
    ensures b.Big? ==> r == (b.first, LARGE_HEADER) && r.0 !in h.slab
  {
    match b
    case Small(c, g, i) => Slots(c, i); (g, Slot(c, i))
    case Big(f, _) => LargeNoSlab(h, f); (f, LARGE_HEADER)
  }

  /** Lists depend only on the NEXT words of the pages on them. */
  lemma ChainedSame(h: Heap, mem': seq<Words>)
    requires Chained(h.mem, h.heads, h.lists, h.seat) && |mem'| == |h.mem|
    requires forall g :: g in h.seat ==> Next(mem', g) == Next(h.mem, g)
    ensures Chained(mem', h.heads, h.lists, h.seat)
  {
    hide Next, Addr, Distinct;
    forall q | 0 <= q < QUEUES ensures Chain(mem', h.heads[q], h.lists[q]) {
      var s: seq<nat> := h.lists[q];
      assert Chain(h.mem, h.heads[q], s);
      forall k | 0 <= k < |s| ensures Next(mem', s[k]) == Ptr(s, k + 1) { assert s[k] in h.seat; }
    }
  }

  ghost predicate Nonempty(h: Heap) {
    forall f :: f in h.large ==> h.large[f] > 0
  }

  /** One block more. */
  lemma LivesAdd(h: Heap, h': Heap, b: Block)
    requires Lives(h) && Owners(h') && Nonempty(h') && !Held(h, b) && h'.live == h.live[Start(b) := b]
    requires forall x: Block :: Held(h', x) <==> Held(h, x) || x == b
    ensures Lives(h') && Start(b) !in h.live
  {
    hide Owners, Slot, Total, Width, Addr;
    forall x: Block | Held(h, x) ensures Start(x) != Start(b) {
      assert Held(h', x) && Held(h', b);
      if Start(x) == Start(b) { StartInjective(h', x, b); }
    }
    hide Start, Held;
  }

  /** One block less. */
  lemma LivesDrop(h: Heap, h': Heap, b: Block)
    requires Lives(h) && Owners(h) && Nonempty(h) && Held(h, b) && h'.live == h.live - {Start(b)}
    requires forall x: Block :: Held(h', x) <==> Held(h, x) && x != b
    ensures Lives(h')
  {
    hide Owners, Slot, Total, Width, Addr;
    forall x: Block | Held(h, x) && x != b ensures Start(x) != Start(b) {
      if Start(x) == Start(b) { StartInjective(h, x, b); }
    }
    hide Start, Held;
  }

  lemma LivesSame(h: Heap, h': Heap)
    requires Lives(h) && h'.live == h.live && forall x: Block :: Held(h', x) <==> Held(h, x)
    ensures Lives(h')
  {
    hide Start, Held;
  }

  ghost function PopH(h: Heap, g: nat): Heap
    requires Sized(h) && Slabs(h) && g in h.slab && h.free[g] != []
  {
    var c, i := h.slab[g], h.free[g][0];
    PoppedOk(h.mem[g], c, g, h.free[g]);
    var b := Small(c, g, i);
    h.(mem := h.mem[g := Popped(h.mem[g], c, i)], free := h.free[g := h.free[g][1..]], live := h.live[Start(b) := b])
  }

  /** One slab changed, apart from its NEXT word. */
  lemma ChangedSlabs(h: Heap, h': Heap, g: nat, w: Words, f: seq<nat>)
    requires Sized(h) && Slabs(h) && g in h.slab && SlabOk(w, h.slab[g], g, f)
    requires h'.mem == h.mem[g := w] && h'.free == h.free[g := f] && h'.slab == h.slab
    ensures Sized(h') && Slabs(h')
  {
    assert |w| == WORDS;
    hide SlabOk;
    assert h'.free.Keys == h.free.Keys;
  }

  lemma ChangedLarges(h: Heap, h': Heap, g: nat, w: Words)
    requires Sized(h) && Larges(h) && Owners(h) && g in h.slab && g < HEAP_PAGES && |w| == WORDS
    requires h'.mem == h.mem[g := w] && h'.large == h.large
    ensures Sized(h') && Larges(h')
  {
    forall x | x in h.large ensures x != g { LargeNoSlab(h, x); }
    hide Owners;
  }

  lemma SlabChanged(h: Heap, h': Heap, g: nat, w: Words, f: seq<nat>)
    requires Core(h) && g in h.slab && g < HEAP_PAGES && |w| == WORDS && w[NEXT] == Next(h.mem, g)
    requires SlabOk(w, h.slab[g], g, f)
    requires h' == h.(mem := h.mem[g := w], free := h.free[g := f], live := h'.live) && Lives(h')
    ensures Core(h')
  {
    hide Chained, Slabs, Larges, Owners, Lives, SlabOk;
    ChangedSlabs(h, h', g, w, f);
    ChangedLarges(h, h', g, w);
    assert forall x: nat :: Next(h'.mem, x) == Next(h.mem, x);
    ChainedSame(h, h'.mem);
    OwnersSame(h, h');
  }

  lemma OwnersSame(h: Heap, h': Heap)
    requires Owners(h) && h'.slab == h.slab && h'.large == h.large && h'.owner == h.owner
    ensures Owners(h')
  {
    forall g | g in h'.owner ensures OwnerOk(h', g) { assert OwnerOk(h, g); }
    hide OwnerOk;
  }

  lemma SlabFacts(h: Heap, g: nat)
    requires Core(h) && g in h.slab
    ensures g in h.free && g < HEAP_PAGES && SlabOk(h.mem[g], h.slab[g], g, h.free[g])
    ensures Next(h.mem, g) == h.mem[g][NEXT]
    ensures Nonempty(h)
  {
    hide SlabOk, Chained, Owners, Lives;
  }

  lemma PopLives(h: Heap, h': Heap, g: nat, c: nat, f: seq<nat>)
    requires Owners(h) && Lives(h) && Nonempty(h) && g in h.slab && h.slab[g] == c && g in h.free && h.free[g] == f
    requires f != []
    requires f[0] < Total(c) && f[0] !in f[1..]
    requires h'.slab == h.slab && h'.large == h.large && h'.owner == h.owner && h'.free == h.free[g := f[1..]]
    requires h'.live == h.live[Start(Small(c, g, f[0])) := Small(c, g, f[0])]
    ensures Lives(h') && Start(Small(c, g, f[0])) !in h.live
  {
    hide Lives, Start, Total;
    OwnersSame(h, h');
    forall x: Block ensures Held(h', x) <==> Held(h, x) || x == Small(c, g, f[0]) {
      assert forall i :: i in f <==> i == f[0] || i in f[1..];
    }
    LivesAdd(h, h', Small(c, g, f[0]));
  }

  /** Taking an object from a slab. */
  lemma PopOpen(h: Heap, g: nat)
    requires Open(h, g) && g in h.free && h.free[g] != []
    ensures Open(PopH(h, g), g) && Start(Small(h.slab[g], g, h.free[g][0])) !in h.live
  {
    hide Chained, Slabs, Larges, Owners, Lives, OthersRanked, SlabOk, Start;
    SlabFacts(h, g);
    PoppedOk(h.mem[g], h.slab[g], g, h.free[g]);
    var h' := PopH(h, g);
    PopLives(h, h', g, h.slab[g], h.free[g]);
    SlabChanged(h, h', g, h'.mem[g], h'.free[g]);
    RanksStay(h, h', g);
  }

  ghost function PushH(h: Heap, g: nat, i: nat): Heap
    requires g in h.slab && g in h.free && g < |h.mem| && |h.mem[g]| == WORDS && Slot(h.slab[g], i) < WORDS
  {
    h.(mem := h.mem[g := Pushed(h.mem[g], h.slab[g], g, i)], free := h.free[g := [i] + h.free[g]],
       live := h.live - {Start(Small(h.slab[g], g, i))})
  }

  lemma PushLives(h: Heap, h': Heap, g: nat, c: nat, i: nat)
    requires Owners(h) && Lives(h) && Nonempty(h) && Held(h, Small(c, g, i))
    requires h'.slab == h.slab && h'.large == h.large && h'.free == h.free[g := [i] + h.free[g]]
    requires h'.live == h.live - {Start(Small(c, g, i))}
    ensures Lives(h')
  {
    hide Lives, Start, Total;
    LivesDrop(h, h', Small(c, g, i));
  }

  /** Giving an object back to its slab. */
  lemma PushOpen(h: Heap, g: nat, i: nat)
    requires Open(h, g) && Held(h, Small(h.slab[g], g, i))
    ensures g < |h.mem| && |h.mem[g]| == WORDS && Slot(h.slab[g], i) < WORDS && Open(PushH(h, g, i), g)
  {
    hide Chained, Slabs, Larges, Owners, Lives, OthersRanked, SlabOk, Start;
    SlabFacts(h, g);
    PushedOk(h.mem[g], h.slab[g], g, h.free[g], i);
    Slots(h.slab[g], i);
    var h' := PushH(h, g, i);
    PushLives(h, h', g, h.slab[g], i);
    SlabChanged(h, h', g, h'.mem[g], h'.free[g]);
    RanksStay(h, h', g);
  }

  ghost function NewSlabH(h: Heap, g: nat, c: nat, w: Words): Heap
    requires g < |h.mem|
  {
    h.(mem := h.mem[g := w], slab := h.slab[g := c], free := h.free[g := Down(Total(c))], owner := h.owner[g := g])
  }

  lemma NewSlabSlabs(h: Heap, g: nat, c: nat, w: Words)
    requires Sized(h) && Slabs(h) && g < HEAP_PAGES && g !in h.slab && SlabOk(w, c, g, Down(Total(c)))
    ensures Sized(NewSlabH(h, g, c, w)) && Slabs(NewSlabH(h, g, c, w))
  {
    assert |w| == WORDS;
    hide SlabOk, Down, Total;
  }

  lemma NewSlabOwners(h: Heap, g: nat, c: nat, w: Words)
    requires Owners(h) && Nonempty(h) && g < HEAP_PAGES && g < |h.mem| && g !in h.owner
    ensures Owners(NewSlabH(h, g, c, w)) && g !in h.slab && g !in h.large
  {
    var h' := NewSlabH(h, g, c, w);
    if g in h.large { LargeNoSlab(h, g); }
    forall p | p in h'.owner ensures OwnerOk(h', p) {
      if p != g {
        assert OwnerOk(h, p);
      }
    }
    forall f | f in h'.large ensures Covers(h'.owner, f, h'.large[f]) {
      assert Covers(h.owner, f, h.large[f]);
    }
    hide OwnerOk, Covers;
  }

  lemma NewSlabLarges(h: Heap, g: nat, c: nat, w: Words)
    requires Sized(h) && Larges(h) && g < HEAP_PAGES && g !in h.large && |w| == WORDS
    ensures Sized(NewSlabH(h, g, c, w)) && Larges(NewSlabH(h, g, c, w))
  {
  }

  lemma NewSlabLives(h: Heap, g: nat, c: nat, w: Words)
    requires Lives(h) && g < |h.mem| && g !in h.slab
    ensures Lives(NewSlabH(h, g, c, w))
  {
    hide Lives, Total, Down;
    var h', n := NewSlabH(h, g, c, w), Total(c);
    forall x: Block ensures Held(h', x) <==> Held(h, x) {
      if x.Small? && x.g == g && x.c == c && x.i < n { assert Down(n)[n - 1 - x.i] == x.i; }
    }
    LivesSame(h, h');
  }

  /** A new slab, on no list yet. */
  lemma NewSlabLoose(h: Heap, g: nat, c: nat, w: Words)
    requires Settled(h) && g < HEAP_PAGES && g !in h.owner && SlabOk(w, c, g, Down(Total(c)))
    ensures g < |h.mem| && Loose(NewSlabH(h, g, c, w), g)
  {
    hide Chained, Slabs, Larges, Owners, Lives, SlabOk, Total, Down, RankOk;
    var h' := NewSlabH(h, g, c, w);
    assert Nonempty(h) by { LargeFacts(h); }
    NewSlabOwners(h, g, c, w);
    NewSlabSlabs(h, g, c, w);
    assert |w| == WORDS by { SlabSized(w, c, g); }
    NewSlabLarges(h, g, c, w);
    NewSlabLives(h, g, c, w);
    assert forall x: nat :: x != g ==> Next(h'.mem, x) == Next(h.mem, x);
    ChainedSame(h, h'.mem);
    assert OthersRanked(h, g);
    RanksStay(h, h', g);
  }

  lemma SlabSized(w: Words, c: nat, g: nat)
    requires SlabOk(w, c, g, Down(Total(c)))
    ensures |w| == WORDS
  {
  }

  lemma LargeFacts(h: Heap)
    requires Core(h)
    ensures Nonempty(h)
  {
    hide Chained, Slabs, Owners, Lives;
  }

  /** Pages f..f+n get the owner `f`. */
  ghost function Span(owner: map<nat, nat>, f: nat, n: nat): (r: map<nat, nat>)
    ensures forall p :: p in r <==> p in owner || f <= p < f + n
    ensures forall p :: p in r ==> r[p] == if f <= p < f + n then f else owner[p]
  {
    if n == 0 then owner else Span(owner, f, n - 1)[f + n - 1 := f]
  }

  ghost function NewLargeH(h: Heap, f: nat, n: nat): Heap
    requires f < |h.mem| && |h.mem[f]| == WORDS
  {
    var w: Words := h.mem[f][0 := MAGIC][1 := n];
    h.(mem := h.mem[f := w], large := h.large[f := n],
       owner := Span(h.owner, f, n), live := h.live[Start(Big(f, n)) := Big(f, n)])
  }

  lemma NewLargeCovers(owner: map<nat, nat>, f: nat, n: nat, x: nat, k: nat)
    requires Covers(owner, x, k) && forall p :: f <= p < f + n ==> p !in owner
    ensures Covers(Span(owner, f, n), x, k)
  {
    hide Span;
    var r := Span(owner, f, n);
    forall p | x <= p < x + k ensures p in r && r[p] == x {
      assert p in owner && owner[p] == x;
    }
  }

  lemma NewLargeOwner(h: Heap, f: nat, n: nat, p: nat)
    requires f < |h.mem| && |h.mem[f]| == WORDS && n > 0 && f + n <= HEAP_PAGES && f !in h.slab && f !in h.large
    requires if f <= p < f + n then p !in h.owner else OwnerOk(h, p)
    ensures OwnerOk(NewLargeH(h, f, n), p)
  {
    hide Span;
  }

  lemma NewLargeOwners(h: Heap, f: nat, n: nat)
    requires Owners(h) && Nonempty(h) && f < |h.mem| && |h.mem[f]| == WORDS && n > 0 && f + n <= HEAP_PAGES
    requires forall p :: f <= p < f + n ==> p !in h.owner
    ensures Owners(NewLargeH(h, f, n)) && f !in h.slab && f !in h.large
  {
    hide Span, Covers, OwnerOk;
    var h' := NewLargeH(h, f, n);
    assert f !in h.owner;
    if f in h.large { LargeNoSlab(h, f); }
    forall p | p in h'.owner ensures OwnerOk(h', p) { NewLargeOwner(h, f, n, p); }
    forall x | x in h'.large ensures Covers(h'.owner, x, h'.large[x]) {
      if x != f { NewLargeCovers(h.owner, f, n, x, h.large[x]); } else { SpanCovers(h.owner, f, n); }
    }
  }

  lemma SpanCovers(owner: map<nat, nat>, f: nat, n: nat)
    ensures Covers(Span(owner, f, n), f, n)
  {
  }

  lemma NewLargeLives(h: Heap, f: nat, n: nat)
    requires Lives(h) && f < |h.mem| && |h.mem[f]| == WORDS && n > 0 && f !in h.large && Nonempty(h)
    requires Owners(NewLargeH(h, f, n))
    ensures Lives(NewLargeH(h, f, n)) && Start(Big(f, n)) !in h.live
  {
    hide Lives, Start, Owners, Total;
    var h' := NewLargeH(h, f, n);
    assert forall x: Block :: Held(h', x) <==> Held(h, x) || x == Big(f, n);
    LivesAdd(h, h', Big(f, n));
  }

  lemma NewLargeMem(h: Heap, f: nat, n: nat)
    requires Sized(h) && Slabs(h) && Larges(h) && f + n <= HEAP_PAGES && n > 0 && f !in h.slab && f !in h.large
    ensures var h' := NewLargeH(h, f, n); Sized(h') && Slabs(h') && Larges(h')
  {
    hide SlabOk;
  }

  /** A large block is handed out. */
  lemma NewLargeSettled(h: Heap, f: nat, n: nat)
    requires Settled(h) && n > 0 && f + n <= HEAP_PAGES && forall p :: f <= p < f + n ==> p !in h.owner
    ensures f < |h.mem| && |h.mem[f]| == WORDS && Settled(NewLargeH(h, f, n)) && Start(Big(f, n)) !in h.live
  {
    hide Chained, Slabs, Larges, Owners, Lives, RankOk, Start;
    var h' := NewLargeH(h, f, n);
    LargeFacts(h);
    NewLargeOwners(h, f, n);
    NewLargeLives(h, f, n);
    NewLargeMem(h, f, n);
    assert forall x: nat :: x != f ==> Next(h'.mem, x) == Next(h.mem, x);
    ChainedSame(h, h'.mem);
    SameRanks(h, h');
  }

  lemma SameRanks(h: Heap, h': Heap)
    requires (forall g :: g in h.slab ==> RankOk(h, g)) && h'.slab == h.slab && h'.seat == h.seat && h'.free == h.free
    ensures forall g :: g in h'.slab ==> RankOk(h', g)
  {
    forall g | g in h'.slab ensures RankOk(h', g) { assert RankOk(h, g); }
  }

  ghost function DropLargeH(h: Heap, f: nat): Heap
    requires f in h.large
  {
    h.(large := h.large - {f}, owner := map p | p in h.owner && h.owner[p] != f ::
      h.owner[p], live := h.live - {Start(Big(f, h.large[f]))})
  }

  lemma DropLargeOwner(h: Heap, f: nat, p: nat)
    requires f in h.large && OwnerOk(h, p) && h.owner[p] != f
    ensures OwnerOk(DropLargeH(h, f), p)
  {
    hide Start;
  }

  lemma DropLargeCovers(h: Heap, f: nat, x: nat)
    requires f in h.large && x in h.large && x != f && Covers(h.owner, x, h.large[x])
    ensures Covers(DropLargeH(h, f).owner, x, h.large[x])
  {
    hide Start;
    var r := DropLargeH(h, f).owner;
    forall p | x <= p < x + h.large[x] ensures p in r && r[p] == x {
      assert p in h.owner && h.owner[p] == x;
    }
  }

  /** The pages of a large block are those it owns. */
  lemma OwnPages(h: Heap, f: nat)
    requires Owners(h) && f in h.large && h.large[f] > 0
    ensures f !in h.slab && forall p :: p in h.owner ==> (h.owner[p] == f <==> f <= p < f + h.large[f])
  {
    LargeNoSlab(h, f);
    assert Covers(h.owner, f, h.large[f]);
    forall p | p in h.owner ensures h.owner[p] == f <==> f <= p < f + h.large[f] { assert OwnerOk(h, p); }
  }

  lemma DropLargeOwners(h: Heap, f: nat)
    requires Owners(h) && f in h.large && h.large[f] > 0
    ensures Owners(DropLargeH(h, f))
  {
    hide OwnerOk, Covers, Start;
    OwnPages(h, f);
    var h' := DropLargeH(h, f);
    forall p | p in h'.owner ensures OwnerOk(h', p) { DropLargeOwner(h, f, p); }
    forall x | x in h'.large ensures Covers(h'.owner, x, h'.large[x]) { DropLargeCovers(h, f, x); }
  }

  /** A large block is given back. */
  lemma DropLargeSettled(h: Heap, f: nat)
    requires Settled(h) && f in h.large
    ensures Settled(DropLargeH(h, f))
    ensures forall p :: p in h.owner ==> (h.owner[p] == f <==> f <= p < f + h.large[f])
  {
    hide Chained, Slabs, Larges, Owners, Lives, RankOk, Start;
    var h' := DropLargeH(h, f);
    LargeFacts(h);
    DropLargeOwners(h, f);
    OwnPages(h, f);
    assert Slabs(h') && Larges(h') by { DropLargeMem(h, f); }
    assert forall x: Block :: Held(h', x) <==> Held(h, x) && x != Big(f, h.large[f]) by { hide Total; }
    LivesDrop(h, h', Big(f, h.large[f]));
    SameRanks(h, h');
  }

  lemma DropLargeMem(h: Heap, f: nat)
    requires Sized(h) && Slabs(h) && Larges(h) && f in h.large
    ensures Slabs(DropLargeH(h, f)) && Larges(DropLargeH(h, f))
  {
    hide SlabOk;
  }
}
