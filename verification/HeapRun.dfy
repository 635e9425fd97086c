/** Whole runs of the kernel heap against the specification: blocks are separate arrays of words. */
module HeapRun {
  import opened Common
  import opened Slab
  import opened HeapLists
  import opened HeapPages
  import opened HeapState
  import opened HeapSteps
  import opened HeapData
  import opened Kmalloc

  /** The specification state: the words of every block handed out, by its address. */
  type World = map<nat, seq<nat>>

  datatype Event =
    | Alloc(size: nat)
    | Zalloc(size: nat)
    | Free(ptr: nat)
    | Realloc(ptr: nat, size: nat)
    | Load(ptr: nat, k: nat)
    | Store(ptr: nat, k: nat, x: nat)

  datatype Output = Refused | Value(n: nat)

  ghost function Contents(mem: seq<Words>, b: Block): (c: seq<nat>)
    ensures |c| == (if Room(b) < 0 then 0 else Room(b)) && forall k :: 0 <= k < |c| ==> c[k] == WordAt(mem, b, k)
  {
    if Room(b) < 0 then [] else seq(Room(b), k requires 0 <= k => WordAt(mem, b, k))
  }

  ghost function WorldOf(live: map<nat, Block>, mem: seq<Words>): (w: World)
    ensures w.Keys == live.Keys && forall a :: a in live ==> w[a] == Contents(mem, live[a])
  {
    map a | a in live :: Contents(mem, live[a])
  }

  /** What callers may ask for: sizes of 32 bits, blocks they hold, words inside them. */
  predicate Fits(e: Event, held: map<nat, nat>) {
    match e
    case Alloc(size) => size < U32
    case Zalloc(size) => size < U32
    case Free(p) => p == 0 || p in held
    case Realloc(p, size) => (p == 0 || p in held) && Sane(size)
    case Load(p, k) => p in held && k < held[p]
    case Store(p, k, _) => p in held && k < held[p]
  }

  function Sizes(w: World): map<nat, nat> {
    map a | a in w :: |w[a]|
  }

  /** A new block is large enough unless its size overflows. */
  predicate Enough(words: nat, size: nat) {
    4 * words >= size <==> Sane(size)
  }

  /** A new block at `p`, everything else as before. */
  predicate Gained(w: World, w': World, p: nat, size: nat) {
    p !in w && p in w' && w' == w[p := w'[p]] && size > 0 && Enough(|w'[p]|, size)
  }

  /** What an event does to the blocks, given whether a block is to be had and, for a resized block,
      whether it stays where it is. */
  predicate Step(w: World, e: Event, w': World, r: nat, can: bool, stays: bool)
    requires Fits(e, Sizes(w))
  {
    match e
    case Alloc(size) => if can then r != 0 && Gained(w, w', r, size) else r == 0 && w' == w
    case Zalloc(size) =>
      if can then r != 0 && Gained(w, w', r, size) && (forall k :: 0 <= k < |w'[r]| ==> w'[r][k] == 0)
        else r == 0 && w' == w
    case Free(p) => w' == w - {p}
    case Realloc(p, size) =>
      if !can then r == 0 && w' == (if p != 0 && size == 0 then w - {p} else w)
      else
        && r != 0 && r in w' && w' == (w - {p})[r := w'[r]] && (if stays then r == p else r !in w)
          && 4 * |w'[r]| >= size
        && (p != 0 ==> forall k :: 0 <= k < |w[p]| && k < |w'[r]| && 4 * k + 4 <= size ==> w'[r][k] == w[p][k])
    case Load(p, k) => w' == w && r == w[p][k]
    case Store(p, k, x) => var c: seq<nat> := w[p][k := x]; w' == w[p := c]
  }

  /** The heap as it is, of which the specification sees the blocks. */
  datatype Snap = Snap(h: Heap, space: Space)

  ghost function Snapped(a: Allocator): Snap
    reads a, a.pages, a.pages.pmm
  {
    Snap(a.h, a.pages.Now())
  }

  ghost function View(s: Snap): World {
    WorldOf(s.h.live, s.h.mem)
  }

  /** A block that is resized and stays where it is. */
  ghost predicate Stays(h: Heap, e: Event) {
    e.Realloc? && e.ptr != 0 && e.ptr in h.live && e.size > 0 && StaysPut(h.live[e.ptr], e.size)
  }

  /** An event that gets a block if it asks for one. */
  ghost predicate Can(s: Snap, e: Event) {
    Stays(s.h, e) || ((e.Alloc? || e.Zalloc? || e.Realloc?) && Affordable(s.h, s.space, e.size))
  }

  /** What an event does to slabs, pages and frames. */
  ghost predicate PoolStep(s: Snap, e: Event, s': Snap) {
    match e
    case Alloc(size) => Drawn(s.h, s.space, size, s'.h.slab, s'.space)
    case Zalloc(size) => Drawn(s.h, s.space, size, s'.h.slab, s'.space)
    case Free(p) =>
      s'.h.slab == s.h.slab && if p in s.h.live then Freed(s.h.live[p], s.space, s'.space) else s'.space == s.space
    case Realloc(p, size) => Reworked(s.h, s.space, p, size, s'.h.slab, s'.space)
    case Load(_, _) => s' == s
    case Store(_, _, _) => s'.h.slab == s.h.slab && s'.space == s.space
  }

  function WordAddr(a: nat, k: nat): nat {
    a + 4 * k
  }

  /** No two blocks have a word in common. */
  predicate Separate(w: World) {
    forall a: nat, k: nat, a': nat, k': nat :: a in w && a' in w && a != a' && k < |w[a]| && k' < |w[a']| ==>
      WordAddr(a, k) != WordAddr(a', k')
  }

  ghost predicate Explains(s: Snap, e: Event, s': Snap, o: Output) {
    var w, w' := View(s), View(s');
    if Fits(e, Sizes(w)) then o.Value? && Step(w, e, w', o.n, Can(s, e), Stays(s.h, e)) && PoolStep(s, e, s')
      else o == Refused && s' == s
  }

  lemma KeptBlock(m: map<nat, Block>, mem: seq<Words>, mem': seq<Words>, a: nat)
    requires Keeps(m, mem, mem') && a in m
    ensures Contents(mem', m[a]) == Contents(mem, m[a])
  {
    hide Room, WordAt;
  }

  lemma KeptWorld(m: map<nat, Block>, mem: seq<Words>, mem': seq<Words>)
    requires Keeps(m, mem, mem')
    ensures WorldOf(m, mem') == WorldOf(m, mem)
  {
    hide Room, WordAt, Keeps, Contents;
    forall a | a in m ensures Contents(mem', m[a]) == Contents(mem, m[a]) { KeptBlock(m, mem, mem', a); }
  }

  lemma GainedWorld(m: map<nat, Block>, m': map<nat, Block>, mem: seq<Words>, mem': seq<Words>, p: nat)
    requires Keeps(m, mem, mem') && p !in m && p in m' && m' == m[p := m'[p]]
    ensures WorldOf(m', mem') == WorldOf(m, mem)[p := Contents(mem', m'[p])]
  {
    hide Room, WordAt, Keeps, Contents;
    KeptWorld(m, mem, mem');
  }

  lemma DroppedWorld(m: map<nat, Block>, mem: seq<Words>, p: nat)
    ensures WorldOf(m - {p}, mem) == WorldOf(m, mem) - {p}
  {
    hide Room, WordAt, Contents;
  }

  lemma SeparateBlocks(h: Heap)
    requires Settled(h)
    ensures Separate(WorldOf(h.live, h.mem))
  {
    hide Settled, Room, WordAt;
    var w := WorldOf(h.live, h.mem);
    forall a: nat, k: nat, a': nat, k': nat | a in w && a' in w && a != a' && k < |w[a]| && k' < |w[a']|
      ensures WordAddr(a, k) != WordAddr(a', k') {
      LiveApart(h, a, k, a', k');
    }
  }

  /** What the callers hold, as they know it: addresses and sizes in words. */
  ghost predicate Known(a: Allocator, held: map<nat, nat>)
    reads a
  {
    held == Sizes(WorldOf(a.h.live, a.mem))
  }

  lemma Live(m: map<nat, Block>, mem: seq<Words>, p: nat)
    requires p in Sizes(WorldOf(m, mem))
    ensures p in m && Sizes(WorldOf(m, mem))[p] == if Room(m[p]) < 0 then 0 else Room(m[p])
  {
  }

  method DoAlloc(a: Allocator, size: nat, zero: bool) returns (r: nat)
    requires a.Ok() && size < U32
    modifies a`mem, a`heads, a`h, a`usage, a`failed, a.pages`bitmap, a.pages`hint, a.pages`backing, a.pages.pmm
    ensures a.Ok()
    ensures var e := if zero then Zalloc(size) else Alloc(size);
      Step(WorldOf(old(a.h.live), old(a.mem)), e, WorldOf(a.h.live, a.mem), r,
        Affordable(old(a.h), old(a.pages.Now()), size), false)
    ensures PoolStep(old(Snapped(a)), Alloc(size), Snapped(a))
  {
    hide Settled, Backed, Sum, Room, WordAt, Keeps, Affordable, Drawn;
    ghost var m, mem := a.h.live, a.mem;
    if zero { r := a.Kzalloc(size); } else { r := a.Kmalloc(size); }
    if r == 0 {
      KeptWorld(m, mem, a.mem);
    } else {
      GainedWorld(m, a.h.live, mem, a.mem, r);
    }
  }

  method DoFree(a: Allocator, p: nat)
    requires a.Ok() && (p == 0 || p in a.h.live)
    modifies a`mem, a`heads, a`h, a`usage, a.pages`bitmap, a.pages`hint, a.pages`backing, a.pages.pmm
    ensures a.Ok() && WorldOf(a.h.live, a.mem) == WorldOf(old(a.h.live), old(a.mem)) - {p}
    ensures PoolStep(old(Snapped(a)), Free(p), Snapped(a))
  {
    hide Settled, Backed, Sum, Room, WordAt, Keeps, WorldOf, Freed;
    NullNotLive(a.h);
    ghost var m, mem := a.h.live, a.mem;
    a.Kfree(p);
    KeptWorld(a.h.live, mem, a.mem);
    DroppedWorld(m, mem, p);
  }

  method DoStore(a: Allocator, p: nat, k: nat, x: nat)
    requires a.Ok() && p in a.h.live && k < Room(a.h.live[p])
    modifies a`mem, a`h
    ensures a.Ok() && k < |WorldOf(old(a.h.live), old(a.mem))[p]|
    ensures PoolStep(old(Snapped(a)), Store(p, k, x), Snapped(a))
    ensures var w := WorldOf(old(a.h.live), old(a.mem)); var c: seq<nat> := w[p][k := x];
      WorldOf(a.h.live, a.mem) == w[p := c]
  {
    hide Settled, Backed, Sum, Room, WordAt;
    ghost var m, mem := a.h.live, a.mem;
    a.Write(p, k, x);
    StoredWorld(m, mem, a.mem, p, k, x);
  }

  lemma StoredWorld(m: map<nat, Block>, mem: seq<Words>, mem': seq<Words>, p: nat, k: nat, x: nat)
    requires p in m && k < Room(m[p]) && Others(m, mem, mem', p)
    requires forall n: nat :: n < Room(m[p]) ==> WordAt(mem', m[p], n) == if n == k then x else WordAt(mem, m[p], n)
    ensures k < |WorldOf(m, mem)[p]|
    ensures var c: seq<nat> := WorldOf(m, mem)[p][k := x]; WorldOf(m, mem') == WorldOf(m, mem)[p := c]
  {
    hide Room, WordAt;
    var c: seq<nat> := Contents(mem, m[p])[k := x];
    assert Contents(mem', m[p]) == c;
    forall b | b in m && b != p ensures Contents(mem', m[b]) == Contents(mem, m[b]) {
      assert forall n: nat :: n < Room(m[b]) ==> WordAt(mem', m[b], n) == WordAt(mem, m[b], n);
    }
  }

  lemma NothingFails(h: Heap, s: Space)
    ensures !Affordable(h, s, 0)
  {
  }

  method DoRealloc(a: Allocator, p: nat, size: nat) returns (r: nat)
    requires a.Ok() && (p == 0 || p in a.h.live) && Sane(size)
    modifies a`mem, a`heads, a`h, a`usage, a`failed, a.pages`bitmap, a.pages`hint, a.pages`backing, a.pages.pmm
    ensures a.Ok()
    ensures Fits(Realloc(p, size), Sizes(WorldOf(old(a.h.live), old(a.mem))))
    ensures var e := Realloc(p, size);
      Step(WorldOf(old(a.h.live), old(a.mem)), e, WorldOf(a.h.live, a.mem), r, old(Can(Snapped(a), e)),
        old(Stays(a.h, e)))
    ensures PoolStep(old(Snapped(a)), Realloc(p, size), Snapped(a))
  {
    hide Settled, Backed, Sum, Room, WordAt, Keeps, Affordable, StaysPut, Reworked;
    ghost var m, mem := a.h.live, a.mem;
    NullNotLive(a.h);
    NothingFails(a.h, a.pages.Now());
    r := a.Krealloc(p, size);
    DroppedWorld(m, mem, p);
    if r != 0 {
      GainedWorld(m - {p}, a.h.live, mem, a.mem, r);
    } else if p != 0 && size == 0 {
      KeptWorld(m - {p}, mem, a.mem);
    } else {
      KeptWorld(m, mem, a.mem);
    }
  }

  /** Whether the event returned a block. */
  predicate GotBlock(e: Event, r: nat) {
    r != 0 && (e.Alloc? || e.Zalloc? || e.Realloc?)
  }

  /** The callers' bookkeeping after an event that returned `r`, a block of `n` words if it is one. */
  function Track(held: map<nat, nat>, e: Event, r: nat, n: nat): map<nat, nat> {
    var rest := if e.Free? || (e.Realloc? && (r != 0 || e.size == 0)) then held - {e.ptr} else held;
    if GotBlock(e, r) then rest[r := n] else rest
  }

  lemma Tracked(w: World, e: Event, w': World, r: nat, n: nat, can: bool, stays: bool)
    requires Fits(e, Sizes(w)) && Step(w, e, w', r, can, stays) && 0 !in w
    requires GotBlock(e, r) && r in w' ==> n == |w'[r]|
    ensures GotBlock(e, r) ==> r in w'
    ensures Sizes(w') == Track(Sizes(w), e, r, n)
  {
  }

  /** One event: what the callers may not ask for is refused, everything else is a step of the
      specification. */
  method DoEvent(a: Allocator, held: map<nat, nat>, e: Event) returns (o: Output)
    requires a.Ok() && Known(a, held)
    modifies a`mem, a`heads, a`h, a`usage, a`failed, a.pages`bitmap, a.pages`hint, a.pages`backing, a.pages.pmm
    ensures a.Ok() && Explains(old(Snapped(a)), e, Snapped(a), o)
  {
    hide Settled, Backed, Sum, Room, WordAt, Affordable, StaysPut, Drawn, Freed, Reworked;
    if !Fits(e, held) { return Refused; }
    match e
    case Alloc(size) => var r := DoAlloc(a, size, false); o := Value(r);
    case Zalloc(size) => var r := DoAlloc(a, size, true); o := Value(r);
    case Free(p) => DoFree(a, p); o := Value(0);
    case Realloc(p, size) => var r := DoRealloc(a, p, size); o := Value(r);
    case Load(p, k) => Live(a.h.live, a.mem, p); var r := a.Read(p, k); o := Value(r);
    case Store(p, k, x) => Live(a.h.live, a.mem, p); DoStore(a, p, k, x); o := Value(0);
  }

  lemma NoNull(h: Heap)
    requires Settled(h)
    ensures 0 !in WorldOf(h.live, h.mem)
  {
    hide Settled, Contents;
    NullNotLive(h);
  }

  /** One event, and what the callers know after it. */
  method Next(a: Allocator, held: map<nat, nat>, e: Event) returns (held': map<nat, nat>, o: Output)
    requires a.Ok() && Known(a, held)
    modifies a`mem, a`heads, a`h, a`usage, a`failed, a.pages`bitmap, a.pages`hint, a.pages`backing, a.pages.pmm
    ensures a.Ok() && Known(a, held') && Explains(old(Snapped(a)), e, Snapped(a), o)
    ensures Separate(WorldOf(old(a.h.live), old(a.mem)))
  {
    hide Settled, Backed, Sum, Room, WordAt, Separate, Track, Step, Can, Stays, PoolStep;
    SeparateBlocks(a.h);
    NoNull(a.h);
    ghost var s, w := Snapped(a), WorldOf(a.h.live, a.mem);
    o := DoEvent(a, held, e);
    held' := held;
    if o.Value? {
      ghost var w' := WorldOf(a.h.live, a.mem);
      Tracked(w, e, w', o.n, if o.n in w' then |w'[o.n]| else 0, Can(s, e), Stays(s.h, e));
      var n := 0;
      if GotBlock(e, o.n) { n := a.WordsOf(o.n); }
      Tracked(w, e, w', o.n, n, Can(s, e), Stays(s.h, e));
      held' := Track(held, e, o.n, n);
    }
  }

  /** `trace` and `outs` are what the events `es` do, one after the other. */
  ghost predicate IsRun(trace: seq<Snap>, es: seq<Event>, outs: seq<Output>) {
    && |trace| == |es| + 1 && |outs| == |es|
    && (forall i :: 0 <= i < |es| ==> Explains(trace[i], es[i], trace[i + 1], outs[i]))
    && (forall i :: 0 <= i < |trace| ==> Settled(trace[i].h))
  }

  /** Every run of the heap from its start is a run of the specification, in which blocks are
      separate arrays: slabs, free lists, headers and page reuse never show. A request fails exactly
      when no block is to be had, and what a free gives back is there for the next request. */
  method Run(a: Allocator, es: seq<Event>) returns (outs: seq<Output>, ghost trace: seq<Snap>)
    requires a.Ok() && a.h.live == map[]
    modifies a`mem, a`heads, a`h, a`usage, a`failed, a.pages`bitmap, a.pages`hint, a.pages`backing, a.pages.pmm
    ensures a.Ok() && IsRun(trace, es, outs) && View(trace[0]) == map[] && trace[|es|] == Snapped(a)
    ensures forall i :: 0 <= i < |trace| ==> Separate(View(trace[i])) && |trace[i].space.bitmap| == HEAP_PAGES
  {
    hide Settled, Backed, Sum, Room, WordAt, Explains, Separate, Track;
    outs, trace := [], [Snapped(a)];
    var held := map[];
    while |outs| < |es|
      invariant a.Ok() && Known(a, held) && |outs| <= |es| && |trace| == |outs| + 1 && View(trace[0]) == map[]
      invariant trace[|outs|] == Snapped(a)
      invariant forall i :: 0 <= i < |outs| ==> Explains(trace[i], es[i], trace[i + 1], outs[i])
      invariant forall i :: 0 <= i < |outs| ==>
        Separate(View(trace[i])) && Settled(trace[i].h) && |trace[i].space.bitmap| == HEAP_PAGES
    {
      var o;
      held, o := Next(a, held, es[|outs|]);
      outs, trace := outs + [o], trace + [Snapped(a)];
    }
    SeparateBlocks(a.h);
  }

  /** A block of this kind is what a request for `size` bytes gets. */
  predicate Serves(b: Block, size: nat) {
    match b
    case Small(c, _, _) => 0 < size <= 2048 && ClassFor(size) == c
    case Big(_, n) => 2048 < size && LargePages(size) == n
  }

  /** A resized block that would serve the request stays where it is, and a small one only then. */
  lemma InPlace(b: Block, size: nat)
    requires (b.Big? ==> b.n > 0) && Sane(size)
    ensures Serves(b, size) ==> StaysPut(b, size)
    ensures StaysPut(b, size) && size > 0 ==> size <= 4 * Room(b) && (b.Small? ==> Serves(b, size))
  {
    if size > 2048 && size < U32 { LargeEnough(size); }
  }

  /** The first of the runs in lo..hi. */
  lemma FirstOfRuns(bits: seq<bool>, lo: nat, hi: nat, n: nat, a: nat) returns (first: nat)
    requires lo <= a && a + n <= hi && FreeRun(bits, a, n)
    ensures FirstRun(bits, lo, hi, n, first)
    decreases a
  {
    hide FreeRun;
    if b :| lo <= b < a && FreeRun(bits, b, n) {
      first := FirstOfRuns(bits, lo, hi, n, b);
    } else {
      first := a;
    }
  }

  /** Pages given back can be had again. */
  lemma PagesAgain(s: Space, s': Space, first: nat, n: nat)
    requires Returned(s, s', first, n) && |s.bitmap| == HEAP_PAGES && n > 0 && s.refused == {}
    ensures Granted(s', n)
  {
    assert FreeRun(s'.bitmap, first, n);
    var f := FirstOfRuns(s'.bitmap, s'.hint, HEAP_PAGES, n, first);
    assert !NoRun(s'.bitmap, s'.hint, HEAP_PAGES, n);
    assert Chosen(s'.bitmap, s'.hint, n, f) && Mappable(s'.refused, f, n);
  }

  /** An object given back is free in its slab. */
  lemma ObjectAgain(h: Heap, h': Heap, p: nat)
    requires Settled(h) && Settled(h') && h'.slab == h.slab && p in h.live && h.live[p].Small? && p !in h'.live
    ensures HasFree(h', h.live[p].c)
  {
    hide Chained, Larges, Owners, RankOk, SlabOk, Start, Total;
    LiveHeld(h, p);
    var b := h.live[p];
    assert b.g in h'.slab && b.g in h'.free;
    assert !Held(h', b);
  }

  /** While an object fits in a slab of class `c` where none is handed out, the class has a free one. */
  lemma RoomLeft(h: Heap, c: nat, g: nat, i: nat)
    requires Settled(h) && g in h.slab && h.slab[g] == c && Slot(c, i) + Width(c) <= WORDS
    requires Start(Small(c, g, i)) !in h.live
    ensures HasFree(h, c)
  {
    hide Chained, Larges, Owners, RankOk, SlabOk, Start, Total, Slot, Width;
    SlotsFit(c, i);
    assert g in h.free && !Held(h, Small(c, g, i));
  }

  /** A request for a small block that some slab has room for is met, and takes no page. */
  lemma NoPageTaken(s: Snap, size: nat, s': Snap, o: Output, g: nat, i: nat)
    requires Settled(s.h) && Explains(s, Alloc(size), s', o) && 0 < size <= 2048
    requires g in s.h.slab && s.h.slab[g] == ClassFor(size)
    requires Slot(ClassFor(size), i) + Width(ClassFor(size)) <= WORDS
    requires Start(Small(ClassFor(size), g, i)) !in s.h.live
    ensures o != Value(0) && s'.space == s.space && s'.h.slab == s.h.slab
  {
    hide Settled, Slot, Width, ClassFor, HasFree, Contents, Gained, Start;
    RoomLeft(s.h, ClassFor(size), g, i);
  }

  /** Those of the first `n` objects of slab `g` that are handed out. */
  ghost function Given(h: Heap, c: nat, g: nat, n: nat): set<nat> {
    set i: nat | i < n && Start(Small(c, g, i)) in h.live
  }

  /** A request hands out at most one object more. */
  lemma GivenNext(h: Heap, h': Heap, c: nat, g: nat, n: nat, r: nat)
    requires h'.live.Keys <= h.live.Keys + {r}
    ensures |Given(h', c, g, n)| <= |Given(h, c, g, n)| + 1
  {
    hide Slot, Width;
    if i :| i in Given(h', c, g, n) && i !in Given(h, c, g, n) {
      forall j | j in Given(h', c, g, n) ensures j in Given(h, c, g, n) + {i} {
        if j < i { SlotsApart(c, j, i); } else if i < j { SlotsApart(c, i, j); }
      }
      SubsetSize(Given(h', c, g, n), Given(h, c, g, n) + {i});
    } else {
      SubsetSize(Given(h', c, g, n), Given(h, c, g, n));
    }
  }

  /** No block starts among the objects of a page that is no slab. */
  lemma NoneGiven(h: Heap, c: nat, g: nat, n: nat)
    requires Settled(h) && g !in h.slab
    requires Slot(c, n) <= WORDS
    ensures Given(h, c, g, n) == {}
  {
    hide Chained, Slabs, Larges, Owners, RankOk, Slot, Width, Total, Addr;
    forall i: nat | i < n ensures Start(Small(c, g, i)) !in h.live {
      if Start(Small(c, g, i)) in h.live {
        var b := h.live[Start(Small(c, g, i))];
        LiveHeld(h, Start(Small(c, g, i)));
        SlotsApart(c, i, n);
        SlotNext(c, 0);
        if i > 0 { SlotsApart(c, 0, i); }
        StartedIn(h, b, g, Slot(c, i));
      }
    }
  }

  /** Blocks that start behind the place of a slab's header are objects of a slab. */
  lemma StartedIn(h: Heap, b: Block, g: nat, k: nat)
    requires Held(h, b) && HEADER <= k < WORDS && Start(b) == Addr(g, k)
    ensures g in h.slab
  {
    match b
    case Small(c, p, i) =>
      Slots(c, i);
      AddrInjective(p, Slot(c, i), g, k);
    case Big(f, _) => AddrInjective(f, LARGE_HEADER, g, k);
  }

  /** If fewer than `n` of the first `n` objects are handed out, one of them is not. */
  lemma OneLeft(h: Heap, c: nat, g: nat, n: nat) returns (i: nat)
    requires |Given(h, c, g, n)| < n
    ensures i < n && Start(Small(c, g, i)) !in h.live
  {
    hide Start;
    if forall j: nat :: j < n ==> Start(Small(c, g, j)) in h.live {
      AllBelow(Given(h, c, g, n), n);
      assert false;
    }
    i :| i < n && Start(Small(c, g, i)) !in h.live;
  }

  lemma {:induction false} AllBelow(s: set<nat>, n: nat)
    requires forall i :: 0 <= i < n ==> i in s
    ensures |s| >= n
  {
    if n > 0 { AllBelow(s - {n - 1}, n - 1); }
  }

  /** Requests for one class only. */
  predicate AllOfClass(es: seq<Event>, c: nat) {
    forall i :: 0 <= i < |es| ==> es[i].Alloc? && 0 < es[i].size <= 2048 && ClassFor(es[i].size) == c
  }

  lemma AllocKeys(s: Snap, size: nat, s': Snap, o: Output)
    requires Explains(s, Alloc(size), s', o) && size < U32
    ensures o.Value? && s'.h.live.Keys <= s.h.live.Keys + {o.n}
  {
    assert View(s).Keys == s.h.live.Keys && View(s').Keys == s'.h.live.Keys;
  }

  /** The request that makes a slab is followed by requests that take no page, until no further object
      fits in the slab. */
  lemma {:induction false} SlabServes(trace: seq<Snap>, es: seq<Event>, outs: seq<Output>, c: nat, g: nat, n: nat)
    requires IsRun(trace, es, outs) && AllOfClass(es, c) && es != []
    requires g !in trace[0].h.slab && g in trace[1].h.slab && trace[1].h.slab[g] == c
    requires 1 <= n <= |es| && Slot(c, n - 1) + Width(c) <= WORDS
    ensures trace[n].space == trace[1].space && trace[n].h.slab == trace[1].h.slab
    ensures (n > 1 ==> outs[n - 1] != Value(0))
    ensures forall k: nat :: Slot(c, k) <= WORDS ==> |Given(trace[n].h, c, g, k)| <= n
  {
    hide Explains, Settled, Slot, Width, ClassFor, Given;
    var e, o := es[n - 1], outs[n - 1];
    assert Explains(trace[n - 1], e, trace[n], o);
    AllocKeys(trace[n - 1], e.size, trace[n], o);
    if n == 1 {
      forall k: nat | Slot(c, k) <= WORDS ensures |Given(trace[n].h, c, g, k)| <= n {
        NoneGiven(trace[0].h, c, g, k);
        GivenNext(trace[0].h, trace[1].h, c, g, k, o.n);
      }
    } else {
      SlotNext(c, n - 1);
      SlotsApart(c, n - 2, n - 1);
      SlabServes(trace, es, outs, c, g, n - 1);
      forall k: nat | Slot(c, k) <= WORDS ensures |Given(trace[n].h, c, g, k)| <= n {
        GivenNext(trace[n - 1].h, trace[n].h, c, g, k, o.n);
      }
      var i := OneLeft(trace[n - 1].h, c, g, n);
      if i < n - 1 { SlotsApart(c, i, n - 1); }
      NoPageTaken(trace[n - 1], e.size, trace[n], o, g, i);
    }
  }

  /** What was freed can be had again: a request that the block would serve does not fail. */
  lemma FreeThenAlloc(s: Snap, p: nat, s': Snap, o: Output, size: nat)
    requires Settled(s.h) && Settled(s'.h) && |s.space.bitmap| == HEAP_PAGES && p in s.h.live
    requires Explains(s, Free(p), s', o) && Serves(s.h.live[p], size)
    requires s.h.live[p].Big? ==> s.space.refused == {}
    ensures Can(s', Alloc(size))
  {
    hide Settled, Returned, Granted, HasFree, Contents, LargePages;
    assert View(s').Keys == s'.h.live.Keys;
    var b := s.h.live[p];
    if b.Small? {
      ObjectAgain(s.h, s'.h, p);
    } else {
      BigSome(s.h, p);
      PagesAgain(s.space, s'.space, b.first, b.n);
    }
  }

  lemma BigSome(h: Heap, p: nat)
    requires Settled(h) && p in h.live && h.live[p].Big?
    ensures h.live[p].n > 0
  {
    hide Chained, Slabs, Owners, RankOk, Start;
    LiveHeld(h, p);
  }
}
