/** The kernel heap allocator: slabs for small sizes, whole pages for large ones. */
module Kmalloc {
  import opened Common
  import opened Slab
  import opened HeapLists
  import opened HeapPages
  import opened HeapState
  import opened HeapSteps
  import opened HeapData

  ghost function Pick(m: map<nat, Block>): (a: nat)
    requires m != map[]
    ensures a in m
  {
    var a :| a in m; a
  }

  /** The sum of what the blocks count for. */
  ghost function Sum(m: map<nat, Block>): nat {
    if m == map[] then 0 else Charge(m[Pick(m)]) + Sum(m - {Pick(m)})
  }

  lemma {:induction false} SumPick(m: map<nat, Block>, a: nat)
    requires a in m
    ensures Sum(m) == Charge(m[a]) + Sum(m - {a})
    decreases |m|
  {
    hide Charge;
    var x := Pick(m);
    if x != a {
      SumPick(m - {x}, a);
      SumPick(m - {a}, x);
      assert m - {x} - {a} == m - {a} - {x};
    }
  }

  lemma SumAdd(m: map<nat, Block>, a: nat, b: Block)
    requires a !in m
    ensures Sum(m[a := b]) == Sum(m) + Charge(b)
  {
    SumPick(m[a := b], a);
    assert m[a := b] - {a} == m;
  }

  /** The page of an address, and its word in the page. */
  function PageOf(a: nat): nat
    requires a >= HEAP
  {
    (a - HEAP) / PAGE
  }

  function WordOf(a: nat): nat
    requires a >= HEAP
  {
    (a - HEAP) % PAGE / 4
  }

  lemma AddrParts(g: nat, k: nat)
    requires k < WORDS
    ensures Addr(g, k) >= HEAP && PageOf(Addr(g, k)) == g && WordOf(Addr(g, k)) == k
    ensures Addr(g, k) == HEAP + g * PAGE + 4 * k
  {
  }

  /** cache_for_size: the smallest class that fits, CLASSES if none does. */
  method CacheForSize(size: nat) returns (c: nat)
    ensures c <= CLASSES && (forall d :: 0 <= d < c ==> Size(d) < size) && (c < CLASSES ==> size <= Size(c))
    ensures c == CLASSES <==> size > 2048
  {
    c := 0;
    while c < CLASSES
      invariant 0 <= c <= CLASSES && forall d :: 0 <= d < c ==> Size(d) < size
    {
      if size <= Size(c) {
        assert Size(c) <= 2048;
        return;
      }
      c := c + 1;
    }
    assert Size(8) == 2048;
  }

  /** The smallest class that fits. */
  function ClassFor(size: nat): (c: nat)
    requires size <= 2048
    ensures c < CLASSES && size <= Size(c) && forall d :: 0 <= d < c ==> Size(d) < size
  {
    if size <= 8 then 0 else if size <= 16 then 1 else if size <= 32 then 2 else if size <= 64 then 3
      else if size <= 128 then 4
    else if size <= 256 then 5 else if size <= 512 then 6 else if size <= 1024 then 7 else 8
  }

  lemma ClassIs(size: nat, c: nat)
    requires size <= 2048 && c <= CLASSES && (forall d :: 0 <= d < c ==> Size(d) < size)
    requires (c < CLASSES ==> size <= Size(c))
    ensures c == ClassFor(size)
  {
    hide Size;
  }

  /** Some slab of class `c` has a free object. */
  ghost predicate HasFree(h: Heap, c: nat) {
    exists g :: g in h.slab && h.slab[g] == c && g in h.free && h.free[g] != []
  }

  /** A block of `size` bytes is to be had: a free object of its class, or the pages it takes. */
  ghost predicate Affordable(h: Heap, s: Space, size: nat) {
    && size > 0
    && if size > 2048 then Granted(s, LargePages(size)) else HasFree(h, ClassFor(size)) || Granted(s, 1)
  }

  /** What a request for `n` pages does to them. */
  ghost predicate Paged(s: Space, s': Space, n: nat) {
    if Granted(s, n) then exists first :: Took(s, s', first, n) else Missed(s, s', n)
  }

  /** What a request for an object of class `c` does to slabs and pages: they stay as they are if some
      slab has a free object, and otherwise one page becomes a slab if one is to be had. */
  ghost predicate DrawnSmall(h: Heap, s: Space, c: nat, slab: map<nat, nat>, s': Space) {
    if HasFree(h, c) then slab == h.slab && s' == s
    else if Granted(s, 1) then exists g :: Took(s, s', g, 1) && slab == h.slab[g := c]
    else slab == h.slab && Missed(s, s', 1)
  }

  /** What kmalloc does to slabs and pages. */
  ghost predicate Drawn(h: Heap, s: Space, size: nat, slab: map<nat, nat>, s': Space) {
    if size == 0 then slab == h.slab && s' == s
    else if size > 2048 then slab == h.slab && Paged(s, s', LargePages(size))
    else DrawnSmall(h, s, ClassFor(size), slab, s')
  }

  /** What freeing a block does to the pages: those of a large block, and as many frames, are free
      again; a small one stays in its slab. */
  ghost predicate Freed(b: Block, s: Space, s': Space) {
    match b
    case Big(first, n) => Returned(s, s', first, n)
    case Small(_, _, _) => s' == s
  }

  /** What krealloc of a live block that moves does to slabs and pages. */
  ghost predicate Moved(h: Heap, s: Space, b: Block, size: nat, slab: map<nat, nat>, s': Space) {
    if Affordable(h, s, size) then exists s1 ::
      Drawn(h, s, size, slab, s1) && Freed(b, s1, s') else Drawn(h, s, size, slab, s')
  }

  /** Whether krealloc leaves a block where it is: a large block that still fits, or the same class. */
  predicate StaysPut(b: Block, size: nat) {
    match b
    case Big(_, _) => 2048 < size <= 4 * Room(b)
    case Small(c, _, _) => size <= 2048 && ClassFor(size) == c
  }

  /** What krealloc does to slabs and pages. */
  ghost predicate Reworked(h: Heap, s: Space, ptr: nat, size: nat, slab: map<nat, nat>, s': Space) {
    if ptr !in h.live then Drawn(h, s, size, slab, s')
    else if size == 0 then slab == h.slab && Freed(h.live[ptr], s, s')
    else if StaysPut(h.live[ptr], size) then slab == h.slab && s' == s
    else Moved(h, s, h.live[ptr], size, slab, s')
  }

  class Allocator {
    const pages: Pages
    var mem: seq<Words>
    /** The partial, full and empty list of each class. */
    var heads: seq<nat>
    var usage: nat
    var failed: nat
    ghost var h: Heap

    /** The concrete fields are those of the ghost heap, and pages in use are those it owns. */
    ghost predicate Match()
      reads this, pages, pages.pmm
    {
      && pages.Ok() && h.mem == mem && h.heads == heads
      && (forall g: nat :: g < HEAP_PAGES ==> (pages.bitmap[g] <==> g in h.owner))
    }

    ghost predicate Ok()
      reads this, pages, pages.pmm
    {
      Match() && Settled(h) && usage == Sum(h.live)
    }

    /** kmalloc_init: no slab and no block; the words of the heap pages are arbitrary. */
    constructor (pages: Pages, mem: seq<Words>)
      requires pages.Ok() && pages.bitmap == seq(HEAP_PAGES, _ => false)
      requires |mem| == HEAP_PAGES && forall g :: 0 <= g < HEAP_PAGES ==> |mem[g]| == WORDS
      ensures this.pages == pages && Ok() && h.live == map[] && usage == 0 && failed == 0
    {
      this.pages, this.mem, usage, failed := pages, mem, 0, 0;
      heads := seq(QUEUES, _ => 0);
      h := Heap(mem, seq(QUEUES, _ => 0), seq(QUEUES, _ => []), map[], map[], map[], map[], map[], map[]);
      new;
      EmptySettled(h);
    }

    /** The head of list `q` is taken out. */
    method UnlinkHead(q: nat, g: nat)
      requires Open(h, g) && h.mem == mem && h.heads == heads && q < QUEUES == |heads| && h.seat[g] == q
      requires heads[q] == Addr(g, 0)
      modifies this`mem, this`heads, this`h
      ensures Loose(h, g) && h.mem == mem && h.heads == heads && |heads| == QUEUES
      ensures Rest(old(h), h) && Keeps(h.live, old(mem), mem)
    {
      hide Core, OthersRanked, Addr, RemoveAt, Keeps;
      HeadIs(h, q, g);
      CutLoose(h, g, q, 0);
      CutKeeps(h, q, 0);
      heads := heads[q := Next(mem, g)];
      h := CutH(h, q, 0);
    }

    /** The walk along list `q` to slab `g`; `prev` is the slab before it, -1 if it is the first. */
    method Walk(q: nat, g: nat) returns (prev: int, ghost k: nat)
      requires |mem| == HEAP_PAGES && q < |heads| == |h.lists| && Chain(mem, heads[q], h.lists[q]) && g in h.lists[q]
      ensures k < |h.lists[q]| && h.lists[q][k] == g && prev == if k == 0 then -1 else h.lists[q][k - 1]
    {
      hide Addr, PageOf;
      ghost var s: seq<nat> := h.lists[q];
      k := 0;
      var cur := heads[q];
      prev := -1;
      while cur != 0 && cur != Addr(g, 0)
        invariant 0 <= k <= |s| && cur == Ptr(s, k) && prev == (if k == 0 then -1 else s[k - 1]) && g in s[k..]
        decreases |s| - k
      {
        AddrParts(s[k], 0);
        var page := PageOf(cur);
        prev, cur := page, Next(mem, page);
        k := k + 1;
      }
      assert s[k] == g by { FoundAt(s, k, g); }
    }

    /** Slab `g` is taken out of list `q`. */
    method Unlink(q: nat, g: nat)
      requires Open(h, g) && h.mem == mem && h.heads == heads && q < QUEUES == |heads| && h.seat[g] == q
      modifies this`mem, this`heads, this`h
      ensures Loose(h, g) && h.mem == mem && h.heads == heads && |heads| == QUEUES
      ensures Rest(old(h), h) && Keeps(h.live, old(mem), mem)
    {
      hide Core, OthersRanked, RemoveAt, Keeps, Chain, Next;
      ListFacts(h, q, g);
      var prev, k := Walk(q, g);
      CutLoose(h, g, q, k);
      CutKeeps(h, q, k);
      if prev < 0 {
        heads := heads[q := Next(mem, g)];
      } else {
        mem := Put(mem, prev, NEXT, Next(mem, g));
      }
      h := CutH(h, q, k);
    }

    /** Slab `g` goes to the front of list `q`. */
    method LinkFront(q: nat, g: nat)
      requires Loose(h, g) && h.mem == mem && h.heads == heads && q < QUEUES == |heads| && q / 3 == h.slab[g]
      modifies this`mem, this`heads, this`h
      ensures Open(h, g) && h.mem == mem && h.heads == heads && |heads| == QUEUES && h.seat[g] == q
      ensures heads[q] == Addr(g, 0)
      ensures Rest(old(h), h) && Keeps(h.live, old(mem), mem)
    {
      hide Core, OthersRanked, Addr, Keeps;
      SlabBounds(h, g);
      LinkOpen(h, g, q);
      LinkKeeps(h, q, g);
      h := LinkH(h, q, g);
      mem := Put(mem, g, NEXT, heads[q]);
      heads := heads[q := Addr(g, 0)];
    }

    /** slab_alloc on slab `g`, which has a free object. */
    method TakeObject(g: nat) returns (ptr: nat, ghost b: Block)
      requires Open(h, g) && h.mem == mem && h.heads == heads && g in h.free && h.free[g] != []
      modifies this`mem, this`h
      ensures Open(h, g) && h.mem == mem && h.heads == heads
      ensures ptr == Start(b) && b == Small(old(h).slab[g], g, old(h).free[g][0]) && ptr !in old(h.live)
      ensures h.live == old(h.live)[ptr := b]
      ensures h.owner == old(h.owner) && h.slab == old(h.slab) && h.seat == old(h.seat)
      ensures h.free == old(h.free)[g := old(h).free[g][1..]]
      ensures Keeps(old(h.live), old(mem), mem)
    {
      hide Chained, Slabs, Larges, Owners, Lives, OthersRanked, Addr, Slot, Keeps, SlabOk, PageOf, WordOf;
      ObjectFacts(h, g);
      PopOpen(h, g);
      PopKeeps(h, g);
      ptr := mem[g][FREE];
      b := Small(h.slab[g], g, h.free[g][0]);
      AddrParts(g, Slot(b.c, b.i));
      var page, word := PageOf(ptr), WordOf(ptr);
      mem := Put(mem, g, FREE, mem[page][word]);
      mem := Put(mem, g, COUNT, mem[g][COUNT] - 1);
      h := PopH(h, g);
    }

    /** slab_free of object `i` of slab `g`. */
    method GiveObject(g: nat, ptr: nat, ghost i: nat)
      requires Open(h, g) && h.mem == mem && h.heads == heads && g in h.free && Held(h, Small(h.slab[g], g, i))
      requires ptr == Start(Small(h.slab[g], g, i))
      modifies this`mem, this`h
      ensures Open(h, g) && h.mem == mem && h.heads == heads && h.live == old(h.live) - {ptr}
      ensures h.owner == old(h.owner) && h.slab == old(h.slab) && h.seat == old(h.seat)
      ensures h.free == old(h.free)[g := [i] + old(h).free[g]]
      ensures Keeps(h.live, old(mem), mem)
    {
      hide Core, OthersRanked, Addr, Slot, Keeps, SlabOk, PageOf, WordOf, Total;
      SlabBounds(h, g);
      PushOpen(h, g, i);
      PushKeeps(h, g, i);
      ghost var c := h.slab[g];
      SlotBound(h, g, i);
      AddrParts(g, Slot(c, i));
      var page, word := PageOf(ptr), WordOf(ptr);
      mem := Put(mem, page, word, mem[g][FREE]);
      mem := Put(mem, g, FREE, ptr);
      mem := Put(mem, g, COUNT, mem[g][COUNT] + 1);
      h := PushH(h, g, i);
    }

    /** slab_create: a new page, formatted, on no list yet. */
    method CreateSlab(c: nat) returns (ok: bool, g: nat)
      requires Match() && Settled(h) && c < CLASSES
      modifies this`mem, this`h, pages`bitmap, pages`hint, pages`backing, pages.pmm
      ensures Match() && h.live == old(h.live) && h.heads == old(h.heads) && Keeps(h.live, old(mem), mem)
      ensures !ok ==> h == old(h)
      ensures ok <==> Granted(old(pages.Now()), 1)
      ensures if ok then Took(old(pages.Now()), pages.Now(), g, 1) && h.slab == old(h.slab)[g := c]
        else Missed(old(pages.Now()), pages.Now(), 1)
      ensures ok ==> Loose(h, g) && h.slab[g] == c && g in h.free && h.free[g] == Down(Total(c))
    {
      hide Chained, Slabs, Larges, Owners, Lives, Total, Down, SlabOk, RankOk, Keeps, Backed, Granted, Chosen, Took,
        Missed, OthersRanked, Addr;
      KeepsRefl(h.live, mem);
      ok, g := pages.AllocPages(1);
      if !ok { return; }
      assert !old(pages.bitmap)[g];
      var w := Format(mem[g], c, g);
      NewSlabLoose(h, g, c, w);
      assert Keeps(h.live, mem, mem[g := w]) by { NewPageKeeps(h, g, mem[g := w]); }
      mem := mem[g := w];
      h := NewSlabH(h, g, c, w);
    }

    /** The slab from which an object of class `c` is taken: the first partial one, else the first
        empty one, else a new one; it ends up at the front of the partial list. */
    method PickSlab(c: nat) returns (ok: bool, g: nat)
      requires Match() && Settled(h) && c < CLASSES
      modifies this`mem, this`heads, this`h, pages`bitmap, pages`hint, pages`backing, pages.pmm
      ensures Match() && h.live == old(h.live) && Keeps(h.live, old(mem), mem)
      ensures !ok ==> Settled(h)
      ensures ok <==> HasFree(old(h), c) || Granted(old(pages.Now()), 1)
      ensures DrawnSmall(old(h), old(pages.Now()), c, h.slab, pages.Now())
      ensures ok ==> Open(h, g) && h.slab[g] == c && g in h.free && h.free[g] != []
      ensures ok ==> |heads| == QUEUES && h.seat[g] == Queue(c, PARTIAL) && heads[Queue(c, PARTIAL)] == Addr(g, 0)
    {
      hide Core, Settled, OthersRanked, Total, Keeps, Addr, RankOk, Backed, Granted, Took, Missed;
      HeadsSized(h);
      KeepsRefl(h.live, mem);
      var p, e := Queue(c, PARTIAL), Queue(c, EMPTY);
      if heads[p] != 0 {
        g := FirstOf(p);
        return true, g;
      }
      ghost var mem0 := mem;
      if heads[e] != 0 {
        g := FirstOf(e);
        UnlinkHead(e, g);
      } else {
        NoneFree(h, c);
        ok, g := CreateSlab(c);
        if !ok { return; }
        SlabBounds(h, g);
        TotalPositive(c);
      }
      ghost var mem1 := mem;
      LinkFront(p, g);
      KeepsTrans(h.live, mem0, mem1, mem);
      return true, g;
    }

    /** The slab at the front of a list that is not empty. */
    method FirstOf(q: nat) returns (g: nat)
      requires Settled(h) && h.mem == mem && h.heads == heads && q < QUEUES == |heads| && heads[q] != 0
      ensures Open(h, g) && h.seat[g] == q && heads[q] == Addr(g, 0) && h.slab[g] == q / 3 && g in h.free
      ensures q % 3 != FULL ==> h.free[g] != []
    {
      hide Core, OthersRanked, Total, Addr, PageOf;
      ghost var first := FirstSeat(h, q);
      AddrParts(first, 0);
      g := PageOf(heads[q]);
      SettledOpen(h, g);
      assert RankOk(h, g);
      TotalPositive(q / 3);
    }

    /** The slab path of kmalloc_internal. */
    method AllocSmall(c: nat) returns (ptr: nat)
      requires Ok() && c < CLASSES
      modifies this`mem, this`heads, this`h, this`usage, this`failed, pages`bitmap, pages`hint, pages`backing, pages.pmm
      ensures Ok() && Keeps(old(h.live), old(mem), mem)
      ensures ptr != 0 <==> HasFree(old(h), c) || Granted(old(pages.Now()), 1)
      ensures DrawnSmall(old(h), old(pages.Now()), c, h.slab, pages.Now())
      ensures ptr == 0 ==> h.live == old(h.live) && failed == old(failed) + 1
      ensures ptr != 0 ==>
        ptr !in old(h.live) && ptr in h.live && h.live[ptr].Small? && h.live[ptr].c == c
          && h.live == old(h.live)[ptr := h.live[ptr]]
    {
      hide Core, Settled, OthersRanked, Total, Keeps, Addr, RankOk, Backed, Sum, Slot, HasFree, Granted, DrawnSmall;
      ghost var mem0, live0 := mem, h.live;
      var ok, g := PickSlab(c);
      if !ok {
        failed := failed + 1;
        return 0;
      }
      ghost var mem1 := mem;
      ghost var b;
      CountBound(h, g);
      ptr, b := TakeObject(g);
      ghost var mem2 := mem;
      KeepsTrans(live0, mem0, mem1, mem2);
      CountIs(h, g);
      if mem[g][COUNT] == 0 {
        UnlinkHead(Queue(c, PARTIAL), g);
        ghost var mem3 := mem;
        LinkFront(Queue(c, FULL), g);
        KeepsTrans(h.live, mem2, mem3, mem);
        KeepsTwice(h.live, live0, mem0, mem2, mem);
      }
      RankIs(h, g);
      OpenSettled(h, g);
      SumAdd(live0, ptr, b);
      usage := usage + Size(c);
      NotNull(b);
    }

    /** A slab moves from one list of its class to the front of another. */
    method Move(from: nat, to: nat, g: nat)
      requires Open(h, g) && h.mem == mem && h.heads == heads && from < QUEUES == |heads| && h.seat[g] == from
      requires to < QUEUES && to / 3 == h.slab[g]
      modifies this`mem, this`heads, this`h
      ensures Open(h, g) && h.mem == mem && h.heads == heads && |heads| == QUEUES && h.seat[g] == to
      ensures Rest(old(h), h) && Keeps(h.live, old(mem), mem)
    {
      hide Core, OthersRanked, Keeps, Addr;
      ghost var mem0 := mem;
      Unlink(from, g);
      ghost var mem1 := mem;
      LinkFront(to, g);
      KeepsTrans(h.live, mem0, mem1, mem);
    }

    /** The slab path of kfree, for object `i` of slab `g`: a slab that was full becomes partial, one
        that has no object in use becomes empty. */
    method FreeSmall(ptr: nat, g: nat, ghost i: nat)
      requires Ok() && g in h.slab && Held(h, Small(h.slab[g], g, i)) && ptr == Start(Small(h.slab[g], g, i))
      modifies this`mem, this`heads, this`h, this`usage
      ensures Ok() && h.live == old(h.live) - {ptr} && Keeps(h.live, old(mem), mem) && h.slab == old(h.slab)
    {
      hide Core, Settled, OthersRanked, Total, Keeps, Addr, RankOk, Backed, Sum, Slot, Start;
      ghost var mem0, live0, b := mem, h.live, Small(h.slab[g], g, i);
      RankBefore(h, g, i);
      CountIs(h, g);
      HeadsSized(h);
      var size := mem[g][SIZE];
      var c := CacheForSize(size);
      ClassOf(h.slab[g], c);
      var wasFull := mem[g][COUNT] == 0;
      LiveBlock(h, b);
      SumPick(live0, ptr);
      GiveObject(g, ptr, i);
      ghost var mem1 := mem;
      usage := usage - size;
      CountIs(h, g);
      if wasFull { Move(Queue(c, FULL), Queue(c, PARTIAL), g); }
      ghost var mem2 := mem;
      CountIs(h, g);
      KeepsRefl(h.live, mem);
      if mem[g][COUNT] == mem[g][TOTAL] { Move(Queue(c, PARTIAL), Queue(c, EMPTY), g); }
      KeepsTrans(h.live, mem0, mem1, mem2);
      KeepsTrans(h.live, mem0, mem2, mem);
      RankIs(h, g);
      OpenSettled(h, g);
    }

    /** The large path of kmalloc_internal. */
    method AllocLarge(size: nat) returns (ptr: nat)
      requires Ok() && 2048 < size < U32
      modifies this`mem, this`h, this`usage, this`failed, pages`bitmap, pages`hint, pages`backing, pages.pmm
      ensures Ok() && Keeps(old(h.live), old(mem), mem)
      ensures ptr != 0 <==> Granted(old(pages.Now()), LargePages(size))
      ensures Paged(old(pages.Now()), pages.Now(), LargePages(size)) && h.slab == old(h.slab)
      ensures ptr == 0 ==> h.live == old(h.live) && failed == old(failed) + 1
      ensures ptr == 0 ==>
        pages.bitmap == old(pages.bitmap) && pages.backing == old(pages.backing)
          && pages.pmm.bits == old(pages.pmm.bits)
      ensures ptr != 0 ==>
        ptr !in old(h.live) && ptr in h.live && h.live[ptr].Big? && h.live[ptr].n == LargePages(size)
          && h.live == old(h.live)[ptr := h.live[ptr]]
    {
      hide Core, Settled, Keeps, Backed, Sum, Start, FreeRun, Filled, Span, LargePages, Addr, Charge, Granted,
        Chosen, Took, Missed;
      ghost var live0 := h.live;
      KeepsRefl(h.live, mem);
      var n := LargePages(size);
      var ok, f := pages.AllocPages(n);
      if !ok {
        failed := failed + 1;
        return 0;
      }
      Untaken(h, old(pages.bitmap), f, n);
      ptr := HandOut(f, n);
      SpanTaken(old(h), h, old(pages.bitmap), pages.bitmap, f, n);
    }

    /** The header of a large block, and the pointer to what follows it. */
    method HandOut(f: nat, n: nat) returns (ptr: nat)
      requires Settled(h) && h.mem == mem && h.heads == heads && usage == Sum(h.live) && n > 0 && f + n <= HEAP_PAGES
      requires forall p :: f <= p < f + n ==> p !in h.owner
      modifies this`mem, this`h, this`usage
      ensures Settled(h) && h.mem == mem && h.heads == heads && usage == Sum(h.live)
      ensures h.owner == Span(old(h.owner), f, n) && h.slab == old(h.slab)
      ensures ptr == Start(Big(f, n)) != 0 && ptr !in old(h.live) && h.live == old(h.live)[ptr := Big(f, n)]
      ensures Keeps(old(h.live), old(mem), mem)
    {
      hide Core, Settled, Keeps, Sum, Start, Span, Addr, Charge;
      NewLargeSettled(h, f, n);
      NewLargeKeeps(h, f, n);
      mem := Put(mem, f, 0, MAGIC);
      mem := Put(mem, f, 1, n);
      ghost var live0, b := h.live, Big(f, n);
      h := NewLargeH(h, f, n);
      SumAdd(live0, Start(b), b);
      usage := usage + n * PAGE;
      BigStart(f, n);
      ptr := HEAP + f * PAGE + 4 * LARGE_HEADER;
    }

    /** The large path of kfree. */
    method FreeLarge(f: nat)
      requires Ok() && f in h.large
      modifies this`h, this`usage, pages`bitmap, pages`hint, pages`backing, pages.pmm
      ensures Ok() && h.live == old(h.live) - {Addr(f, LARGE_HEADER)} && h.slab == old(h.slab)
      ensures Returned(old(pages.Now()), pages.Now(), f, old(h.large)[f])
      ensures pages.P() == Without(old(pages.P()), f, old(h.large)[f]).(refs := pages.pmm.refs)
    {
      hide Core, Settled, Backed, Sum, Start, FreeRun, Without, Returned;
      ghost var live0 := h.live;
      LargeBlock(h, f);
      var n := mem[f][1];
      BigStart(f, n);
      ghost var b := Big(f, n);
      LiveBlock(h, b);
      SumPick(live0, Start(b));
      DropLargeSettled(h, f);
      Owned(h, pages.bitmap, f, n);
      pages.FreePages(f, n);
      h := DropLargeH(h, f);
      DropTaken(old(h), h, old(pages.bitmap), pages.bitmap, f, n);
      usage := usage - n * PAGE;
    }

    /** kmalloc: a block that overlaps no live one, exactly when one is to be had; it is large enough
        unless the size overflows past its last page. */
    method Kmalloc(size: nat) returns (ptr: nat)
      requires Ok() && size < U32
      modifies this`mem, this`heads, this`h, this`usage, this`failed, pages`bitmap, pages`hint, pages`backing, pages.pmm
      ensures Ok() && Keeps(old(h.live), old(mem), mem)
      ensures ptr != 0 <==> Affordable(old(h), old(pages.Now()), size)
      ensures Drawn(old(h), old(pages.Now()), size, h.slab, pages.Now())
      ensures ptr == 0 ==> h.live == old(h.live) && failed == old(failed) + if size == 0 then 0 else 1
      ensures ptr != 0 ==> size > 0 && ptr !in old(h.live) && ptr in h.live && h.live == old(h.live)[ptr := h.live[ptr]]
      ensures ptr != 0 ==> (4 * Room(h.live[ptr]) >= size <==> Sane(size))
    {
      hide Core, Settled, Keeps, Backed, Sum, Size, HasFree, Granted, LargePages, Paged, DrawnSmall;
      KeepsRefl(h.live, mem);
      if size == 0 { return 0; }
      if size > 2048 {
        if Granted(pages.Now(), LargePages(size)) { GrantedSome(pages.Now(), LargePages(size)); }
        ptr := AllocLarge(size);
        LargeEnough(size);
        return;
      }
      var c := CacheForSize(size);
      ClassIs(size, c);
      WidthOf(c);
      ptr := AllocSmall(c);
    }

    /** large_alloc_hdr: whether `ptr` is to be treated as a large block. */
    function IsLarge(ptr: nat): bool
      requires ptr >= HEAP
      reads this
    {
      var page := PageOf(ptr);
      ptr == HEAP + page * PAGE + 4 * LARGE_HEADER && page < |mem| && |mem[page]| > 0 && mem[page][0] == MAGIC
    }

    /** The test is exact for every live block. */
    lemma Classified(ptr: nat)
      requires Match() && Settled(h) && ptr in h.live
      ensures ptr >= HEAP && (IsLarge(ptr) <==> h.live[ptr].Big?) && Held(h, h.live[ptr]) && ptr == Start(h.live[ptr])
      ensures h.live[ptr].Big? ==> PageOf(ptr) == h.live[ptr].first
      ensures h.live[ptr].Small? ==>
        PageOf(ptr) == h.live[ptr].g && h.live[ptr].g in h.slab && h.slab[h.live[ptr].g] == h.live[ptr].c
    {
      hide Core, Slot, Total, Width, RankOk, Backed, PageOf;
      var b := h.live[ptr];
      LiveHeld(h, ptr);
      NotNull(b);
      if b.Big? {
        LargeBlock(h, b.first);
        AddrParts(b.first, LARGE_HEADER);
      } else {
        Slots(b.c, b.i);
        AddrParts(b.g, Slot(b.c, b.i));
      }
    }

    /** kfree of null or of a live block. */
    method Kfree(ptr: nat)
      requires Ok() && (ptr == 0 || ptr in h.live)
      modifies this`mem, this`heads, this`h, this`usage, pages`bitmap, pages`hint, pages`backing, pages.pmm
      ensures Ok() && h.live == old(h.live) - {ptr} && Keeps(h.live, old(mem), mem) && h.slab == old(h.slab)
      ensures if ptr == 0 then pages.Now() == old(pages.Now())
        else Freed(old(h.live)[ptr], old(pages.Now()), pages.Now())
      ensures ptr != 0 && old(h.live)[ptr].Big? ==>
        pages.P() == Without(old(pages.P()), old(h.live)[ptr].first, old(h.live)[ptr].n).(refs := pages.pmm.refs)
    {
      hide Core, Settled, Keeps, Backed, Sum, Start, Addr, PageOf, Total, Returned, Without;
      KeepsRefl(h.live - {ptr}, mem);
      if ptr == 0 {
        assert 0 !in h.live by { NullNotLive(h); }
        assert h.live - {0} == h.live;
        return;
      }
      Classified(ptr);
      ghost var b := h.live[ptr];
      if IsLarge(ptr) {
        BigStart(b.first, b.n);
        FreeLarge(PageOf(ptr));
      } else {
        FreeSmall(ptr, PageOf(ptr), b.i);
      }
    }

    /** A store by the holder of a block: the allocator's structures and all other words of all
        blocks are unaffected. */
    method Write(ptr: nat, k: nat, x: nat)
      requires Ok() && ptr in h.live && k < Room(h.live[ptr])
      modifies this`mem, this`h
      ensures Ok() && h.live == old(h.live) && h.slab == old(h.slab)
      ensures Others(h.live, old(mem), mem, ptr)
      ensures forall n: nat :: n < Room(h.live[ptr]) ==>
        WordAt(mem, h.live[ptr], n) == if n == k then x else WordAt(old(mem), h.live[ptr], n)
    {
      hide Core, Settled, Backed, Sum, Start, Slot, Width, Total, Room, WordAt;
      LiveHeld(h, ptr);
      ghost var b := h.live[ptr];
      AddressedWrite(h, ptr, k, x);
      var a := ptr + 4 * k;
      WrittenSettled(h, b, k, x);
      mem := Put(mem, PageOf(a), WordOf(a), x);
      h := h.(mem := mem);
    }

    /** The memset of a fresh block of `words` words. */
    method Zero(ptr: nat, words: nat)
      requires Ok() && ptr in h.live && words == Room(h.live[ptr])
      modifies this`mem, this`h
      ensures Ok() && h.live == old(h.live) && h.slab == old(h.slab)
      ensures Others(h.live, old(mem), mem, ptr) && forall n: nat :: n < Room(h.live[ptr]) ==>
        WordAt(mem, h.live[ptr], n) == 0
    {
      hide Core, Settled, Backed, Sum, Room, WordAt;
      var k := 0;
      while k < words
        invariant 0 <= k <= words && Ok() && h.live == old(h.live) && h.slab == old(h.slab)
        invariant Others(h.live, old(mem), mem, ptr)
        invariant forall n: nat :: n < k ==> WordAt(mem, h.live[ptr], n) == 0
      {
        Write(ptr, k, 0);
        k := k + 1;
      }
    }

    /** The words of a live block, as kfree and krealloc recover them. */
    method WordsOf(ptr: nat) returns (words: nat)
      requires Ok() && ptr in h.live
      ensures words == Room(h.live[ptr])
    {
      hide Core, Settled, Backed, Sum, PageOf, Start, Total, Slot;
      Classified(ptr);
      ghost var b := h.live[ptr];
      var page := PageOf(ptr);
      if IsLarge(ptr) {
        LargeBlock(h, page);
        words := mem[page][1] * WORDS - LARGE_HEADER;
      } else {
        SizeIs(h, page);
        WidthOf(b.c);
        words := mem[page][SIZE] / 4;
      }
    }

    /** kzalloc. */
    method Kzalloc(size: nat) returns (ptr: nat)
      requires Ok() && size < U32
      modifies this`mem, this`heads, this`h, this`usage, this`failed, pages`bitmap, pages`hint, pages`backing, pages.pmm
      ensures Ok() && Keeps(old(h.live), old(mem), mem)
      ensures ptr != 0 <==> Affordable(old(h), old(pages.Now()), size)
      ensures Drawn(old(h), old(pages.Now()), size, h.slab, pages.Now())
      ensures ptr == 0 ==> h.live == old(h.live) && failed == old(failed) + if size == 0 then 0 else 1
      ensures ptr != 0 ==> size > 0 && ptr !in old(h.live) && ptr in h.live && h.live == old(h.live)[ptr := h.live[ptr]]
      ensures ptr != 0 ==> (4 * Room(h.live[ptr]) >= size <==> Sane(size))
      ensures ptr != 0 ==> forall n: nat :: n < Room(h.live[ptr]) ==> WordAt(mem, h.live[ptr], n) == 0
    {
      hide Core, Settled, Backed, Sum, Room, WordAt, Affordable, Drawn;
      ptr := Kmalloc(size);
      if ptr != 0 {
        ghost var mem1 := mem;
        var words := WordsOf(ptr);
        Zero(ptr, words);
        OthersKeep(h.live, old(h.live), mem1, mem, ptr);
        KeepsTrans(old(h.live), old(mem), mem1, mem);
      }
    }

    /** kcalloc: a product that does not fit 32 bits is refused. */
    method Kcalloc(count: nat, size: nat) returns (ptr: nat)
      requires Ok() && count < U32 && size < U32
      modifies this`mem, this`heads, this`h, this`usage, this`failed, pages`bitmap, pages`hint, pages`backing, pages.pmm
      ensures Ok() && Keeps(old(h.live), old(mem), mem)
      ensures ptr != 0 <==> Bytes(count, size) < U32 && Affordable(old(h), old(pages.Now()), Bytes(count, size))
      ensures if Bytes(count, size) < U32 then Drawn(old(h), old(pages.Now()), Bytes(count, size), h.slab, pages.Now())
        else h.slab == old(h.slab) && pages.Now() == old(pages.Now())
      ensures ptr == 0 ==> h.live == old(h.live) && failed == old(failed) + if Bytes(count, size) == 0 then 0 else 1
      ensures ptr != 0 ==> ptr !in old(h.live) && ptr in h.live && h.live == old(h.live)[ptr := h.live[ptr]]
      ensures ptr != 0 ==> (4 * Room(h.live[ptr]) >= Bytes(count, size) <==> Sane(Bytes(count, size)))
      ensures ptr != 0 ==> forall n: nat :: n < Room(h.live[ptr]) ==> WordAt(mem, h.live[ptr], n) == 0
    {
      hide Core, Settled, Backed, Sum, Room, WordAt, Keeps, Affordable, Drawn;
      KeepsRefl(h.live, mem);
      Overflow(count, size);
      if count != 0 && size > (U32 - 1) / count {
        failed := failed + 1;
        return 0;
      }
      ptr := Kzalloc(Bytes(count, size));
    }

    /** The memcpy of krealloc, word by word. */
    method Copy(dst: nat, src: nat, words: nat)
      requires Ok() && dst in h.live && src in h.live && dst != src && words <= Room(h.live[dst])
      requires words <= Room(h.live[src])
      modifies this`mem, this`h
      ensures Ok() && h.live == old(h.live) && h.slab == old(h.slab)
      ensures Others(h.live, old(mem), mem, dst)
      ensures forall n: nat :: n < words ==> WordAt(mem, h.live[dst], n) == WordAt(old(mem), h.live[src], n)
    {
      hide Core, Settled, Backed, Sum, Room, WordAt;
      var k := 0;
      while k < words
        invariant 0 <= k <= words && Ok() && h.live == old(h.live) && h.slab == old(h.slab)
        invariant Others(h.live, old(mem), mem, dst)
        invariant forall n: nat :: n < k ==> WordAt(mem, h.live[dst], n) == WordAt(old(mem), h.live[src], n)
      {
        var x := Read(src, k);
        Write(dst, k, x);
        k := k + 1;
      }
    }

    method Read(ptr: nat, k: nat) returns (x: nat)
      requires Ok() && ptr in h.live && k < Room(h.live[ptr])
      ensures x == WordAt(mem, h.live[ptr], k)
    {
      hide Core, Settled, Backed, Sum, Room, PageOf, WordOf;
      AddressedWrite(h, ptr, k, 0);
      x := mem[PageOf(ptr + 4 * k)][WordOf(ptr + 4 * k)];
    }

    /** krealloc of a live block to a size that is not 0. */
    method Resize(ptr: nat, size: nat) returns (r: nat)
      requires Ok() && ptr in h.live && 0 < size && Sane(size)
      modifies this`mem, this`heads, this`h, this`usage, this`failed, pages`bitmap, pages`hint, pages`backing, pages.pmm
      ensures Ok() && Keeps(old(h.live) - {ptr}, old(mem), mem)
      ensures r == ptr <==> StaysPut(old(h.live)[ptr], size)
      ensures r != 0 <==> StaysPut(old(h.live)[ptr], size) || Affordable(old(h), old(pages.Now()), size)
      ensures if r == ptr then h.slab == old(h.slab) && pages.Now() == old(pages.Now())
        else Moved(old(h), old(pages.Now()), old(h.live)[ptr], size, h.slab, pages.Now())
      ensures r == 0 ==> h.live == old(h.live) && Keeps(old(h.live), old(mem), mem)
      ensures r != 0 ==>
        r in h.live && h.live == (old(h.live) - {ptr})[r := h.live[r]] && (r == ptr || r !in old(h.live))
      ensures r != 0 ==> 4 * Room(h.live[r]) >= size
      ensures r != 0 ==> forall n: nat :: n < Room(h.live[r]) && n < Room(old(h.live)[ptr]) && 4 * n + 4 <= size ==>
        WordAt(mem, h.live[r], n) == WordAt(old(mem), old(h.live)[ptr], n)
    {
      hide Core, Settled, Backed, Sum, Room, WordAt, PageOf, Keeps, Others, Affordable, StaysPut, Drawn, Freed;
      NullNotLive(h);
      KeepsRefl(h.live, mem);
      KeepsRefl(h.live - {ptr}, mem);
      ghost var live0, mem0 := h.live, mem;
      var words := WordsOf(ptr);
      var stay := Stays(ptr, size, words);
      if stay {
        assert (h.live - {ptr})[ptr := h.live[ptr]] == h.live;
        return ptr;
      }
      r := Kmalloc(size);
      if r == 0 {
        KeepsLess(live0, live0 - {ptr}, mem0, mem);
        return;
      }
      ghost var mem1, live1 := mem, h.live;
      var n := size / 4;
      if words < n { n := words; }
      Copy(r, ptr, n);
      ghost var mem2 := mem;
      Kfree(ptr);
      assert h.live == (live0 - {ptr})[r := live1[r]];
      ghost var m := live0 - {ptr};
      OthersKeep(live1, m, mem1, mem2, r);
      KeepsLess(live0, m, mem0, mem1);
      KeepsLess(h.live, m, mem2, mem);
      KeepsTrans(m, mem0, mem1, mem2);
      KeepsTrans(m, mem0, mem2, mem);
      ResizedData(live0, mem0, mem1, live1, mem2, h.live, mem, ptr, r, n);
    }

    /** Whether a block is kept as it is: a large block that still fits, or the same size class. */
    method Stays(ptr: nat, size: nat, words: nat) returns (stay: bool)
      requires Ok() && ptr in h.live && words == Room(h.live[ptr]) && 0 < size < U32
      ensures (stay <==> StaysPut(h.live[ptr], size)) && (stay ==> 4 * words >= size)
    {
      hide Core, Settled, Backed, Sum, PageOf, Start, Total, Slot, Size, Width;
      Classified(ptr);
      ghost var b := h.live[ptr];
      if IsLarge(ptr) {
        return size > 2048 && size <= 4 * words;
      }
      var page := PageOf(ptr);
      SizeIs(h, page);
      WidthOf(b.c);
      var c := CacheForSize(mem[page][SIZE]);
      ClassOf(b.c, c);
      var d := CacheForSize(size);
      if size <= 2048 { ClassIs(size, d); }
      return c == d;
    }

    /** krealloc. The last 15 sizes get a block that is too small from kmalloc, into which the code
        would copy too much; they are excluded. */
    method Krealloc(ptr: nat, size: nat) returns (r: nat)
      requires Ok() && (ptr == 0 || ptr in h.live) && Sane(size)
      modifies this`mem, this`heads, this`h, this`usage, this`failed, pages`bitmap, pages`hint, pages`backing, pages.pmm
      ensures Ok() && Keeps(old(h.live) - {ptr}, old(mem), mem)
      ensures r != 0 <==>
        size > 0 && ((ptr != 0 && StaysPut(old(h.live)[ptr], size)) || Affordable(old(h), old(pages.Now()), size))
      ensures ptr != 0 ==> (r == ptr <==> size > 0 && StaysPut(old(h.live)[ptr], size))
      ensures Reworked(old(h), old(pages.Now()), ptr, size, h.slab, pages.Now())
      ensures r == 0 && (size > 0 || ptr == 0) ==> h.live == old(h.live) && Keeps(old(h.live), old(mem), mem)
      ensures ptr != 0 && size == 0 ==> r == 0 && h.live == old(h.live) - {ptr}
      ensures r != 0 ==>
        r in h.live && h.live == (old(h.live) - {ptr})[r := h.live[r]] && (r == ptr || r !in old(h.live))
      ensures r != 0 ==> 4 * Room(h.live[r]) >= size
      ensures r != 0 && ptr != 0 ==> forall n: nat ::
        n < Room(h.live[r]) && n < Room(old(h.live)[ptr]) && 4 * n + 4 <= size ==>
        WordAt(mem, h.live[r], n) == WordAt(old(mem), old(h.live)[ptr], n)
    {
      hide Core, Settled, Backed, Sum, Room, WordAt, Keeps, StaysPut, Drawn, Freed, Moved;
      if ptr == 0 {
        NullNotLive(h);
        assert h.live - {0} == h.live;
        r := Kmalloc(size);
      } else if size == 0 {
        Kfree(ptr);
        r := 0;
      } else {
        r := Resize(ptr, size);
      }
    }
  }

  /** Live blocks do not overlap. */
  lemma LiveApart(h: Heap, a: nat, k: nat, a': nat, k': nat)
    requires Settled(h) && a in h.live && a' in h.live && a != a' && k < Room(h.live[a]) && k' < Room(h.live[a'])
    ensures a + 4 * k != a' + 4 * k'
  {
    hide Chained, Slabs, Larges, Owners, Lives, RankOk, Room, PageOf, WordOf, Spot, Start, Held;
    LiveHeld(h, a);
    LiveHeld(h, a');
    LargeFacts(h);
    SpotAddress(h, h.live[a], k);
    SpotAddress(h, h.live[a'], k');
    if Spot(h.live[a], k) == Spot(h.live[a'], k') { Apart(h, h.live[a], k, h.live[a'], k'); }
  }

  /** Every slab is on exactly one list, the one its number of free objects calls for. */
  lemma OnOneList(h: Heap, g: nat, c: nat, kind: nat)
    requires Settled(h) && g in h.slab && c < CLASSES && kind <= EMPTY
    ensures |h.lists| == QUEUES && g in h.free
    ensures g in h.lists[Queue(c, kind)] <==> c == h.slab[g] && KindOk(kind, |h.free[g]|, Total(c))
  {
    hide Core, Total;
    assert RankOk(h, g);
    TotalPositive(h.slab[g]) by { FreeFacts(h, g); }
    SeatList(h, g, Queue(c, kind));
  }

  lemma SeatList(h: Heap, g: nat, q: nat)
    requires Core(h) && g in h.seat && q < QUEUES
    ensures |h.lists| == QUEUES && (g in h.lists[q] <==> h.seat[g] == q)
  {
    hide Slabs, Larges, Owners, Lives, Chains;
  }

  /** All blocks but the one at `ptr` have the same contents in both memories. */
  ghost predicate Others(live: map<nat, Block>, mem: seq<Words>, mem': seq<Words>, ptr: nat) {
    forall a, n: nat :: a in live && a != ptr && n < Room(live[a]) ==>
      WordAt(mem', live[a], n) == WordAt(mem, live[a], n)
  }

  lemma OthersKeep(live: map<nat, Block>, m: map<nat, Block>, mem: seq<Words>, mem': seq<Words>, ptr: nat)
    requires Others(live, mem, mem', ptr) && forall a :: a in m ==> a in live && live[a] == m[a] && a != ptr
    ensures Keeps(m, mem, mem')
  {
    hide Room, WordAt;
    forall a, k: nat | a in m && k < Room(m[a])
      ensures WordAt(mem', m[a], k) == WordAt(mem, m[a], k) { assert live[a] == m[a]; }
  }

  lemma KeepsLess(live: map<nat, Block>, m: map<nat, Block>, mem: seq<Words>, mem': seq<Words>)
    requires Keeps(live, mem, mem') && forall a :: a in m ==> a in live && live[a] == m[a]
    ensures Keeps(m, mem, mem')
  {
    hide Room, WordAt;
    forall a, k: nat | a in m && k < Room(m[a])
      ensures WordAt(mem', m[a], k) == WordAt(mem, m[a], k) { assert live[a] == m[a]; }
  }

  /** The copy in a resized block: through the new block, the copying and the freeing of the old. */
  lemma ResizedData(live0: map<nat, Block>, mem0: seq<Words>, mem1: seq<Words>, live1: map<nat, Block>,
    mem2: seq<Words>,
                    live3: map<nat, Block>, mem3: seq<Words>, ptr: nat, r: nat, words: nat)
    requires ptr in live0 && r in live1 && ptr in live1 && live1[ptr] == live0[ptr] && r in live3
    requires live3[r] == live1[r]
    requires Keeps(live0, mem0, mem1) && Keeps(live3, mem2, mem3) && words <= Room(live0[ptr])
    requires forall n: nat :: n < words ==> WordAt(mem2, live1[r], n) == WordAt(mem1, live1[ptr], n)
    ensures forall n: nat :: n < words && n < Room(live3[r]) ==>
      WordAt(mem3, live3[r], n) == WordAt(mem0, live0[ptr], n)
  {
    hide Room, WordAt;
    forall n: nat | n < words && n < Room(live3[r]) ensures WordAt(mem3, live3[r], n) == WordAt(mem0, live0[ptr], n) {
      assert WordAt(mem3, live3[r], n) == WordAt(mem2, live3[r], n);
      assert WordAt(mem1, live0[ptr], n) == WordAt(mem0, live0[ptr], n);
    }
  }

  function Bytes(count: nat, size: nat): nat {
    count * size
  }

  /** The test of kcalloc is exact. */
  lemma Overflow(count: nat, size: nat)
    ensures count != 0 && size > (U32 - 1) / count <==> Bytes(count, size) >= U32
  {
    if count != 0 {
      var q := (U32 - 1) / count;
      assert q * count <= U32 - 1 < q * count + count;
      if size > q {
        MulMono(q + 1, size, count);
      } else {
        MulMono(size, q, count);
      }
    }
  }

  lemma MulMono(a: nat, b: nat, c: nat)
    requires a <= b
    ensures a * c <= b * c
  {
  }

  lemma SizeIs(h: Heap, g: nat)
    requires Settled(h) && g in h.slab
    ensures g < |h.mem| && |h.mem[g]| == WORDS && h.mem[g][SIZE] == Size(h.slab[g]) && h.slab[g] < CLASSES
  {
    hide Core, RankOk, Size;
    CountIs(h, g);
    FreeFacts(h, g);
  }

  lemma WidthOf(c: nat)
    ensures Size(c) == 4 * Width(c)
  {
  }

  lemma LiveHeld(h: Heap, ptr: nat)
    requires Settled(h) && ptr in h.live
    ensures Held(h, h.live[ptr]) && ptr == Start(h.live[ptr])
  {
    hide Chained, Slabs, Larges, Owners, RankOk, Start, Held;
  }

  lemma NullNotLive(h: Heap)
    requires Settled(h)
    ensures 0 !in h.live
  {
    hide Core, RankOk;
    if 0 in h.live {
      LiveHeld(h, 0);
      NotNull(h.live[0]);
    }
  }

  /** The address of word `k` of a block, and what a store there changes. */
  lemma AddressedWrite(h: Heap, ptr: nat, k: nat, x: nat)
    requires Settled(h) && ptr in h.live && k < Room(h.live[ptr])
    ensures ptr >= HEAP && Spot(h.live[ptr], k) == (PageOf(ptr + 4 * k), WordOf(ptr + 4 * k))
    ensures PageOf(ptr + 4 * k) < HEAP_PAGES == |h.mem| && WordOf(ptr + 4 * k) < WORDS == |h.mem[PageOf(ptr + 4 * k)]|
    ensures forall a, n: nat :: a in h.live && n < Room(h.live[a]) ==>
      WordAt(Put(h.mem, PageOf(ptr + 4 * k), WordOf(ptr + 4 * k), x), h.live[a], n)
        == if a == ptr && n == k then x else WordAt(h.mem, h.live[a], n)
  {
    hide Chained, Slabs, Larges, Owners, Lives, RankOk, Slot, Width, Total, Room, WordAt, Put;
    LiveHeld(h, ptr);
    LivesHeld(h);
    LargeFacts(h);
    var b := h.live[ptr];
    NotNull(b);
    BlockWord(h, b, k, x, h.live);
    SpotAddress(h, b, k);
    forall a | a in h.live && h.live[a] == b ensures a == ptr { LiveHeld(h, a); }
  }

  lemma SpotAddress(h: Heap, b: Block, k: nat)
    requires Owners(h) && Nonempty(h) && Held(h, b) && k < Room(b)
    ensures Spot(b, k) == (PageOf(Start(b) + 4 * k), WordOf(Start(b) + 4 * k))
  {
    SpotOwned(h, b, k);
    var (p, w) := Spot(b, k);
    hide Owners, Slot, Width, Total;
    AddrParts(p, w);
    assert Start(b) + 4 * k == Addr(p, w);
  }

  /** The structures survive a store to a word of a block. */
  lemma WrittenSettled(h: Heap, b: Block, k: nat, x: nat)
    requires Settled(h) && Held(h, b) && k < Room(b)
    ensures var (p, w) := Spot(b, k);
      p < |h.mem| && w < |h.mem[p]| && Settled(h.(mem := Put(h.mem, p, w, x)))
  {
    hide Chained, Slabs, Larges, Owners, Lives, RankOk, Slot, Width, Total, SlabOk;
    LargeFacts(h);
    SpotOwned(h, b, k);
    var (p, w) := Spot(b, k);
    var h' := h.(mem := Put(h.mem, p, w, x));
    if b.Small? {
      SlabFacts(h, p);
      BodyWrite(h.mem[p], b.c, p, h.free[p], b.i, k, x);
      assert h.free[p := h.free[p]] == h.free;
      assert Lives(h') by { CutRest(h, h'); }
      SlabChanged(h, h', p, h'.mem[p], h.free[p]);
    } else {
      WrittenLarge(h, h', b, p, w, x);
    }
    SameRanks(h, h');
  }

  lemma WrittenLarge(h: Heap, h': Heap, b: Block, p: nat, w: nat, x: nat)
    requires Core(h) && h.seat.Keys == h.slab.Keys && b.Big? && Held(h, b) && p < HEAP_PAGES && w < WORDS
    requires p in h.owner && p !in h.slab && h.owner[p] == b.first && (p == b.first ==> w >= LARGE_HEADER)
    requires p < |h.mem| && w < |h.mem[p]| && h' == h.(mem := Put(h.mem, p, w, x))
    ensures Core(h')
  {
    assert Slabs(h') && Sized(h') by { hide SlabOk, Chained, Larges, Owners, Lives; }
    assert Larges(h') by {
      hide Chained, Slabs, Lives;
      forall f | f in h.large && f == p ensures p == b.first { LargeNoSlab(h, f); }
    }
    hide Chained, Slabs, Larges, Owners, Lives;
    CutRest(h, h');
    assert forall y: nat :: y != p ==> Next(h'.mem, y) == Next(h.mem, y);
    ChainedSame(h, h'.mem);
  }

  /** The pages of a large block; the sum is one of 32-bit numbers. */
  function LargePages(size: nat): nat {
    (size + 4 * LARGE_HEADER + PAGE - 1) % U32 / PAGE
  }

  /** Sizes to which the header can be added without an overflow. */
  predicate Sane(size: nat) {
    size + 4 * LARGE_HEADER <= U32
  }

  /** Where the sum with header and rounding overflows there is no page at all, which is refused, or,
      for the last 15 sizes, one page, which is too small; every other size gets enough pages, and not
      one more than it takes. */
  lemma LargeEnough(size: nat)
    requires 2048 < size < U32
    ensures LargePages(size) > 0 ==> (LargePages(size) * PAGE - 4 * LARGE_HEADER >= size <==> Sane(size))
    ensures LargePages(size) == 0 <==> size + 4 * LARGE_HEADER + PAGE - 1 >= U32 && Sane(size)
    ensures !Sane(size) ==> LargePages(size) == 1
    ensures LargePages(size) > 0 && Sane(size) ==> (LargePages(size) - 1) * PAGE < size + 4 * LARGE_HEADER
  {
  }

  lemma GrantedSome(s: Space, n: nat)
    requires Granted(s, n)
    ensures n > 0
  {
  }

  lemma BigStart(f: nat, n: nat)
    ensures Start(Big(f, n)) == Addr(f, LARGE_HEADER) == HEAP + f * PAGE + 4 * LARGE_HEADER
    ensures Charge(Big(f, n)) == n * PAGE
  {
  }

  lemma Untaken(h: Heap, bitmap: seq<bool>, f: nat, n: nat)
    requires |bitmap| == HEAP_PAGES && FreeRun(bitmap, f, n) && forall g: nat :: g < HEAP_PAGES ==>
      (bitmap[g] <==> g in h.owner)
    ensures f + n <= HEAP_PAGES && forall p :: f <= p < f + n ==> p !in h.owner
  {
  }

  lemma SpanTaken(h: Heap, h': Heap, bitmap: seq<bool>, bitmap': seq<bool>, f: nat, n: nat)
    requires |bitmap| == HEAP_PAGES && f + n <= HEAP_PAGES && bitmap' == Filled(bitmap, f, n, true)
    requires h'.owner == Span(h.owner, f, n)
    requires forall g: nat :: g < HEAP_PAGES ==> (bitmap[g] <==> g in h.owner)
    ensures forall g: nat :: g < HEAP_PAGES ==> (bitmap'[g] <==> g in h'.owner)
  {
    hide Span, Filled;
  }

  lemma Owned(h: Heap, bitmap: seq<bool>, f: nat, n: nat)
    requires Settled(h) && f in h.large && h.large[f] == n && |bitmap| == HEAP_PAGES
    requires forall g: nat :: g < HEAP_PAGES ==> (bitmap[g] <==> g in h.owner)
    ensures f + n <= HEAP_PAGES && forall p :: f <= p < f + n ==> bitmap[p]
  {
    hide Chained, Slabs, Lives, RankOk;
    assert Covers(h.owner, f, n);
    forall p | f <= p < f + n ensures bitmap[p] { assert OwnerOk(h, p); }
  }

  lemma DropTaken(h: Heap, h': Heap, bitmap: seq<bool>, bitmap': seq<bool>, f: nat, n: nat)
    requires f in h.large && h' == DropLargeH(h, f) && h.large[f] == n && |bitmap| == HEAP_PAGES && f + n <= HEAP_PAGES
    requires bitmap' == Filled(bitmap, f, n, false)
    requires (forall p :: p in h.owner ==> (h.owner[p] == f <==> f <= p < f + n))
    requires forall g: nat :: g < HEAP_PAGES ==> (bitmap[g] <==> g in h.owner)
    ensures forall g: nat :: g < HEAP_PAGES ==> (bitmap'[g] <==> g in h'.owner)
  {
    hide Filled, Start;
  }

  lemma LargeBlock(h: Heap, f: nat)
    requires Settled(h) && f in h.large
    ensures f < HEAP_PAGES == |h.mem| && |h.mem[f]| == WORDS && h.mem[f][0] == MAGIC && h.mem[f][1] == h.large[f] > 0
  {
    hide Chained, Slabs, Owners, Lives, RankOk;
  }

  lemma NewLargeKeeps(h: Heap, f: nat, n: nat)
    requires Settled(h) && f < HEAP_PAGES && f !in h.owner && f < |h.mem| && |h.mem[f]| == WORDS
    ensures Keeps(h.live, h.mem, NewLargeH(h, f, n).mem)
  {
    hide Core, RankOk, Span, Keeps;
    NewPageKeeps(h, f, NewLargeH(h, f, n).mem);
  }

  /** What moving slabs between lists leaves alone. */
  ghost predicate Rest(h: Heap, h': Heap) {
    h'.owner == h.owner && h'.live == h.live && h'.free == h.free && h'.slab == h.slab && h'.large == h.large
  }

  lemma EmptySettled(h: Heap)
    requires |h.mem| == HEAP_PAGES && (forall g :: 0 <= g < HEAP_PAGES ==> |h.mem[g]| == WORDS)
    requires h == Heap(h.mem, seq(QUEUES, _ => 0), seq(QUEUES, _ => []), map[], map[], map[], map[], map[], map[])
    ensures Settled(h)
  {
    assert forall b: Block :: !Held(h, b);
  }

  lemma SlabBounds(h: Heap, g: nat)
    requires Core(h) && g in h.slab
    ensures g < HEAP_PAGES == |h.mem| && |h.mem[g]| == WORDS && |h.heads| == |h.lists| == QUEUES && h.slab[g] < CLASSES
    ensures g in h.free
  {
    hide Seats, Larges, Owners, Lives, Chain;
  }

  /** The list `q` holds `g`, and its chain can be followed. */
  lemma ListFacts(h: Heap, q: nat, g: nat)
    requires Core(h) && q < QUEUES && |h.heads| == QUEUES && g in h.seat && h.seat[g] == q
    ensures |h.lists| == QUEUES && g in h.lists[q] && Chain(h.mem, h.heads[q], h.lists[q])
    ensures |h.mem| == HEAP_PAGES && forall p :: 0 <= p < HEAP_PAGES ==> |h.mem[p]| == WORDS
  {
    hide Slabs, Larges, Owners, Lives, Chain;
  }

  /** A list pointer that is null or points to `g`, with `g` still ahead. */
  lemma FoundAt(s: seq<nat>, k: nat, g: nat)
    requires k <= |s| && g in s[k..] && (Ptr(s, k) == 0 || Ptr(s, k) == Addr(g, 0))
    ensures k < |s| && s[k] == g
  {
  }

  lemma ObjectFacts(h: Heap, g: nat)
    requires Core(h) && g in h.slab && g in h.free && h.free[g] != []
    ensures g < HEAP_PAGES == |h.mem| && |h.mem[g]| == WORDS && h.mem[g][COUNT] == |h.free[g]|
    ensures Slot(h.slab[g], h.free[g][0]) < WORDS && h.mem[g][FREE] == Addr(g, Slot(h.slab[g], h.free[g][0]))
  {
    hide Chained, Larges, Owners, Lives, Slot, Addr;
    assert SlabOk(h.mem[g], h.slab[g], g, h.free[g]);
  }

  lemma SlotBound(h: Heap, g: nat, i: nat)
    requires g in h.slab && Held(h, Small(h.slab[g], g, i))
    ensures HEADER <= Slot(h.slab[g], i) < WORDS
  {
    Slots(h.slab[g], i);
  }

  lemma PopKeeps(h: Heap, g: nat)
    requires Core(h) && g in h.slab && g in h.free && h.free[g] != []
    ensures Keeps(h.live, h.mem, PopH(h, g).mem)
  {
    ObjectFacts(h, g);
    hide Chained, Slabs, Owners, Lives, Larges, Keeps, Slot, Addr, SlabOk;
    LivesHeld(h);
    LargeFacts(h);
    HeadersOnly(h, h.live, PopH(h, g).mem);
  }

  /** The first word of a freed object is written, but the object is no longer live. */
  lemma PushKeeps(h: Heap, g: nat, i: nat)
    requires Core(h) && g in h.slab && g in h.free && Held(h, Small(h.slab[g], g, i))
    ensures g < |h.mem| && |h.mem[g]| == WORDS && Slot(h.slab[g], i) < WORDS
    ensures Keeps(h.live - {Start(Small(h.slab[g], g, i))}, h.mem, PushH(h, g, i).mem)
  {
    hide Chained, Slabs, Owners, Larges, Keeps, Slot, Addr, SlabOk, Total, Width;
    SlabBounds(h, g);
    SlotBound(h, g, i);
    LargeFacts(h);
    var b := Small(h.slab[g], g, i);
    var m := h.live - {Start(b)};
    assert AllHeld(h, m) by { LivesHeld(h); }
    var mem1 := Put(h.mem, g, Slot(b.c, i), h.mem[g][FREE]);
    assert Keeps(m, h.mem, mem1) by { FreedWord(h, b, m, h.mem[g][FREE]); }
    var h1 := h.(mem := mem1);
    assert Owners(h1) by { OwnersSame(h, h1); }
    HeadersOnly(h1, m, PushH(h, g, i).mem);
    KeepsTrans(m, h.mem, mem1, PushH(h, g, i).mem);
  }

  lemma FreedWord(h: Heap, b: Block, m: map<nat, Block>, x: nat)
    requires Owners(h) && Nonempty(h) && Sized(h) && b.Small? && Held(h, b) && AllHeld(h, m) && forall a ::
      a in m ==> m[a] != b
    ensures b.g < HEAP_PAGES && Slot(b.c, b.i) < WORDS && Keeps(m, h.mem, Put(h.mem, b.g, Slot(b.c, b.i), x))
  {
    hide Owners, Nonempty, Held, Slot;
    BlockWord(h, b, 0, x, m);
  }

  lemma HeadsSized(h: Heap)
    requires Settled(h)
    ensures |h.heads| == QUEUES
  {
    hide Slabs, Larges, Owners, Lives, Seats, RankOk;
  }

  lemma FirstSeat(h: Heap, q: nat) returns (g: nat)
    requires Settled(h) && q < QUEUES && |h.heads| == QUEUES && h.heads[q] != 0
    ensures h.heads[q] == Addr(g, 0) && g in h.slab && g in h.seat && h.seat[g] == q
  {
    hide Slabs, Larges, Owners, Lives, RankOk, Addr;
    assert Chain(h.mem, h.heads[q], h.lists[q]);
    g := h.lists[q][0];
  }

  /** If neither a partial nor an empty slab of a class is listed, no slab of it has a free object. */
  lemma NoneFree(h: Heap, c: nat)
    requires Settled(h) && c < CLASSES && |h.heads| == QUEUES && h.heads[Queue(c, PARTIAL)] == 0
    requires h.heads[Queue(c, EMPTY)] == 0
    ensures !HasFree(h, c)
  {
    hide Core, Total;
    forall g | g in h.slab && h.slab[g] == c && g in h.free ensures h.free[g] == [] {
      assert RankOk(h, g);
      SeatList(h, g, h.seat[g]);
      if h.seat[g] % 3 != FULL { ListedHead(h, g); }
    }
  }

  lemma ListedHead(h: Heap, g: nat)
    requires Core(h) && g in h.seat
    ensures h.seat[g] < |h.heads| && h.heads[h.seat[g]] != 0
  {
    hide Slabs, Larges, Owners, Lives;
    assert Chain(h.mem, h.heads[h.seat[g]], h.lists[h.seat[g]]);
  }

  lemma TotalPositive(c: nat)
    requires c < CLASSES
    ensures Total(c) > 0
  {
    Slots8(c);
  }

  lemma Slots8(c: nat)
    requires c < CLASSES
    ensures 8 <= Size(c) <= 2048
  {
  }

  lemma KeepsRefl(m: map<nat, Block>, mem: seq<Words>)
    ensures Keeps(m, mem, mem)
  {
  }

  lemma NewPageKeeps(h: Heap, g: nat, mem': seq<Words>)
    requires Core(h) && g !in h.owner && |mem'| == |h.mem| && forall p :: 0 <= p < |h.mem| && p != g ==>
      mem'[p] == h.mem[p]
    ensures Keeps(h.live, h.mem, mem')
  {
    hide Chained, Slabs, Owners, Lives, Larges;
    LivesHeld(h);
    LargeFacts(h);
    FreshPage(h, h.live, mem', g);
  }

  lemma NotNull(b: Block)
    ensures Start(b) >= HEAP > 0
  {
  }

  /** Distinct numbers below `n`: there are at most `n`. */
  lemma {:induction false} Pigeonhole(f: seq<nat>, n: nat)
    requires Distinct(f) && forall k :: 0 <= k < |f| ==> f[k] < n
    ensures |f| <= n
  {
    if |f| > 0 {
      assert f[0] < n;
      if n - 1 in f {
        var k :| 0 <= k < |f| && f[k] == n - 1;
        RemoveDistinct(f, k);
        Pigeonhole(RemoveAt(f, k), n - 1);
      } else {
        Pigeonhole(f, n - 1);
      }
    }
  }

  lemma CountIs(h: Heap, g: nat)
    requires Core(h) && g in h.slab
    ensures g in h.free && g < |h.mem| && |h.mem[g]| == WORDS && h.mem[g][COUNT] == |h.free[g]|
    ensures h.mem[g][TOTAL] == Total(h.slab[g])
    ensures h.mem[g][SIZE] == Size(h.slab[g])
  {
    hide Chained, Larges, Owners, Lives, Slot, Addr;
    assert SlabOk(h.mem[g], h.slab[g], g, h.free[g]);
  }

  lemma CountBound(h: Heap, g: nat)
    requires Core(h) && g in h.slab
    ensures g in h.free && |h.free[g]| <= Total(h.slab[g]) && h.slab[g] < CLASSES
  {
    hide Core, Total;
    FreeFacts(h, g);
    Pigeonhole(h.free[g], Total(h.slab[g]));
  }

  lemma FreeFacts(h: Heap, g: nat)
    requires Core(h) && g in h.slab
    ensures g in h.free && FreeOk(h.slab[g], h.free[g]) && h.slab[g] < CLASSES
  {
    hide Chained, Larges, Owners, Lives, Slot, Addr, Total;
    assert SlabOk(h.mem[g], h.slab[g], g, h.free[g]);
  }

  /** A slab on the list of the right kind. */
  lemma RankIs(h: Heap, g: nat)
    requires g in h.seat && g in h.slab && g in h.free && h.slab[g] < CLASSES
    requires var n, t := |h.free[g]|, Total(h.slab[g]);
      h.seat[g] == Queue(h.slab[g], if n == 0 then FULL else if n == t then EMPTY else PARTIAL) && n <= t
    ensures RankOk(h, g)
  {
    hide Total;
  }

  lemma KeepsTwice(live: map<nat, Block>, live0: map<nat, Block>, mem0: seq<Words>, mem2: seq<Words>, mem: seq<Words>)
    requires Keeps(live0, mem0, mem2) && Keeps(live, mem2, mem) && forall a :: a in live0 ==>
      a in live && live[a] == live0[a]
    ensures Keeps(live0, mem0, mem)
  {
    hide WordAt, Room;
  }

  lemma LiveBlock(h: Heap, b: Block)
    requires Settled(h) && Held(h, b)
    ensures Start(b) in h.live && h.live[Start(b)] == b
  {
    hide Chained, Slabs, Larges, Owners, RankOk, Start;
  }

  /** The class found for the object size of a slab is the slab's class. */
  lemma ClassOf(c: nat, d: nat)
    requires c < CLASSES && d <= CLASSES && (forall e :: 0 <= e < d ==> Size(e) < Size(c))
    requires (d < CLASSES ==> Size(c) <= Size(d)) && d < CLASSES
    ensures d == c
  {
    assert c < d ==> Size(c) < Size(c);
    if d < c { SizesRise(d, c); }
  }

  lemma SizesRise(c: nat, d: nat)
    requires c < CLASSES && d < CLASSES && c < d
    ensures Size(c) < Size(d)
  {
  }

  /** A slab with an object in use is partial or full. */
  lemma RankBefore(h: Heap, g: nat, i: nat)
    requires Settled(h) && g in h.slab && Held(h, Small(h.slab[g], g, i))
    ensures Open(h, g) && g in h.free && |h.free[g]| < Total(h.slab[g]) && h.slab[g] < CLASSES
    ensures h.seat[g] == Queue(h.slab[g], if |h.free[g]| == 0 then FULL else PARTIAL)
  {
    hide Core, Total, OthersRanked;
    SettledOpen(h, g);
    assert RankOk(h, g);
    FreeFacts(h, g);
    Pigeonhole(h.free[g] + [i], Total(h.slab[g]));
  }

  lemma HeadIs(h: Heap, q: nat, g: nat)
    requires Core(h) && q < QUEUES && |h.heads| == QUEUES && h.heads[q] == Addr(g, 0)
    ensures |h.lists| == QUEUES && |h.lists[q]| > 0 && h.lists[q][0] == g
  {
    hide Slabs, Larges, Owners, Lives, Seats;
    assert Chain(h.mem, h.heads[q], h.lists[q]);
  }
}
