/** The pages of the kernel heap: a bitmap of virtual pages with a first-fit search from a hint,
    and the frames behind the pages. */
module HeapPages {
  import opened Common
  import opened Pmm

  const HEAP_PAGES := 0x1_0000

  /** `n` free pages from `a` on. */
  predicate FreeRun(bits: seq<bool>, a: nat, n: nat) {
    a + n <= |bits| && forall k :: a <= k < a + n ==> !bits[k]
  }

  /** The lowest page in lo..hi at which `n` free pages start that end by `hi`, if any. */
  predicate FirstRun(bits: seq<bool>, lo: nat, hi: nat, n: nat, a: nat) {
    lo <= a && a + n <= hi && FreeRun(bits, a, n) && forall b :: lo <= b < a ==> !FreeRun(bits, b, n)
  }

  predicate NoRun(bits: seq<bool>, lo: nat, hi: nat, n: nat) {
    forall b :: lo <= b && b + n <= hi ==> !FreeRun(bits, b, n)
  }

  /** The first fit for `n` pages: in hint..end, else in 0..hint; a run never spans the hint. */
  predicate Chosen(bitmap: seq<bool>, hint: nat, n: nat, first: nat) {
    if NoRun(bitmap, hint, HEAP_PAGES, n) then FirstRun(bitmap, 0, hint, n, first)
      else FirstRun(bitmap, hint, HEAP_PAGES, n, first)
  }

  lemma ChosenOnce(bitmap: seq<bool>, hint: nat, n: nat, a: nat, b: nat)
    requires Chosen(bitmap, hint, n, a) && Chosen(bitmap, hint, n, b)
    ensures a == b
  {
  }

  /** A run that spans the hint is not found, even if it is the whole heap. */
  lemma SeamRefuses(hint: nat, first: nat)
    requires 0 < hint < HEAP_PAGES
    ensures !Chosen(seq(HEAP_PAGES, _ => false), hint, HEAP_PAGES, first)
    ensures FreeRun(seq(HEAP_PAGES, _ => false), 0, HEAP_PAGES)
  {
  }

  lemma FrameTaken(bits: seq<bool>, f: nat)
    requires 1 <= f < |bits| && !bits[f]
    ensures f in FreeSet(bits) && |FreeSet(bits[f := true])| == |FreeSet(bits)| - 1
  {
    assert FreeSet(bits[f := true]) == FreeSet(bits) - {f};
  }

  /** What an allocation of pages depends on: the pages, the hint, the frames and the pages that
      cannot be mapped. */
  datatype Space = Space(bitmap: seq<bool>, hint: nat, bits: seq<bool>, refused: set<nat>)

  /** None of the pages first..first+n is refused. */
  predicate Mappable(refused: set<nat>, first: nat, n: nat) {
    forall p :: first <= p < first + n ==> p !in refused
  }

  lemma MappableNext(refused: set<nat>, first: nat, k: nat, n: nat)
    ensures Mappable(refused, first, 0)
    ensures Mappable(refused, first, k) && first + k !in refused ==> Mappable(refused, first, k + 1)
    ensures k < n && first + k in refused ==> !Mappable(refused, first, n)
  {
  }

  /** There are `n` pages at the first fit that can be mapped, and enough frames. */
  ghost predicate Granted(s: Space, n: nat) {
    n > 0 && n <= |FreeSet(s.bits)| && exists first ::
      Chosen(s.bitmap, s.hint, n, first) && Mappable(s.refused, first, n)
  }

  /** The hint after pages first..first+n were reserved. */
  function HintAfter(first: nat, n: nat): nat {
    if first + n < HEAP_PAGES then first + n else 0
  }

  /** The hint after pages from `first` on were given back. */
  function HintBack(hint: nat, first: nat): nat {
    if first < hint then first else hint
  }

  /** `n` pages at the first fit were taken, and as many frames. */
  ghost predicate Took(s: Space, s': Space, first: nat, n: nat) {
    && Chosen(s.bitmap, s.hint, n, first) && first + n <= |s.bitmap|
    && s' == s.(bitmap := Filled(s.bitmap, first, n, true), hint := HintAfter(first, n), bits := s'.bits)
    && |s'.bits| == |s.bits| && (forall f :: 0 <= f < |s.bits| && s.bits[f] ==> s'.bits[f])
    && |FreeSet(s'.bits)| + n == |FreeSet(s.bits)|
  }

  /** No pages were taken; the hint moves to a first fit that could not be used. */
  ghost predicate Missed(s: Space, s': Space, n: nat) {
    && s' == s.(hint := s'.hint)
    && (forall first :: Chosen(s.bitmap, s.hint, n, first) && n > 0 ==> s'.hint == HintBack(HintAfter(first, n), first))
    && ((n == 0 || forall first :: !Chosen(s.bitmap, s.hint, n, first)) ==> s'.hint == s.hint)
  }

  /** Pages first..first+n and as many frames were given back. */
  ghost predicate Returned(s: Space, s': Space, first: nat, n: nat) {
    && first + n <= |s.bitmap|
    && s' == s.(bitmap := Filled(s.bitmap, first, n, false), hint := HintBack(s.hint, first), bits := s'.bits)
    && |s'.bits| == |s.bits| && (forall f :: 0 <= f < |s.bits| && s'.bits[f] ==> s.bits[f])
    && |FreeSet(s'.bits)| == |FreeSet(s.bits)| + n
  }

  /** Pages that follow those taken last are taken next, if they are free. */
  lemma NextFit(s: Space, s': Space, first: nat, n: nat, m: nat)
    requires Took(s, s', first, n) && |s.bitmap| == HEAP_PAGES && m > 0 && FreeRun(s.bitmap, first + n, m)
    ensures Chosen(s'.bitmap, s'.hint, m, first + n)
  {
    assert FreeRun(s'.bitmap, first + n, m);
  }

  /** Pages given back from before the hint are taken next by a request for as many; otherwise the
      search goes on where it was. */
  lemma FreedFirst(s: Space, s': Space, first: nat, n: nat)
    requires Returned(s, s', first, n) && |s.bitmap| == HEAP_PAGES && n > 0
    ensures if first <= s.hint then Chosen(s'.bitmap, s'.hint, n, first)
      else forall m: nat, a: nat :: s.hint <= a && a + m <= first && Chosen(s.bitmap, s.hint, m, a) ==>
        Chosen(s'.bitmap, s'.hint, m, a)
  {
    assert FreeRun(s'.bitmap, first, n);
    forall m: nat, a: nat | first > s.hint && s.hint <= a && a + m <= first && Chosen(s.bitmap, s.hint, m, a)
      ensures Chosen(s'.bitmap, s'.hint, m, a) {
      assert FreeRun(s.bitmap, a, m) && FreeRun(s'.bitmap, a, m);
      forall b | s.hint <= b < a ensures !FreeRun(s'.bitmap, b, m) { assert !FreeRun(s.bitmap, b, m); }
    }
  }

  lemma FrameGiven(bits: seq<bool>, f: nat)
    requires 1 <= f < |bits| && bits[f]
    ensures |FreeSet(bits[f := false])| == |FreeSet(bits)| + 1
  {
    assert FreeSet(bits[f := false]) == FreeSet(bits) + {f};
  }

  /** The pages first..first+n are all set, or all cleared. */
  function Filled(bits: seq<bool>, first: nat, n: nat, x: bool): (r: seq<bool>)
    requires first + n <= |bits|
    ensures |r| == |bits| && forall k :: 0 <= k < |bits| ==> r[k] == if first <= k < first + n then x else bits[k]
  {
    bits[..first] + seq(n, _ => x) + bits[first + n..]
  }

  lemma FilledBack(bits: seq<bool>, first: nat, n: nat)
    requires FreeRun(bits, first, n)
    ensures Filled(Filled(bits, first, n, true), first, n, false) == bits
  {
  }

  /** One pass of the search: `run` counts the free pages just before `i`. */
  method Scan(bits: seq<bool>, lo: nat, hi: nat, n: nat) returns (found: bool, first: nat)
    requires lo <= hi <= |bits| && n > 0
    ensures found ==> FirstRun(bits, lo, hi, n, first)
    ensures !found ==> NoRun(bits, lo, hi, n)
  {
    var i, run := lo, 0;
    while i < hi
      invariant lo <= i <= hi && 0 <= run < n && run <= i - lo
      invariant forall k :: i - run <= k < i ==> !bits[k]
      invariant run < i - lo ==> bits[i - run - 1]
      invariant forall b :: lo <= b && b + n <= i ==> !FreeRun(bits, b, n)
    {
      if bits[i] {
        run := 0;
      } else {
        run := run + 1;
        if run == n {
          return true, i + 1 - n;
        }
      }
      forall b | lo <= b && b + n == i + 1 ensures !FreeRun(bits, b, n) {
        assert bits[i - run];
      }
      i := i + 1;
    }
    return false, 0;
  }

  /** The frames behind the pages, and the allocator's view of them. */
  datatype Phys = Phys(backing: map<nat, nat>, bits: seq<bool>, refs: seq<nat>)

  /** `s` is `s0` with pages lo..hi mapped to frames that are free in `s0`; `home` gives the page
      of each such frame. */
  ghost predicate Extra(s0: Phys, s: Phys, lo: nat, hi: nat, home: map<nat, nat>) {
    && |s.bits| == |s.refs| == |s0.bits| == |s0.refs|
    && (forall p :: p in s.backing <==> p in s0.backing || lo <= p < hi)
    && (forall p :: lo <= p < hi ==> p !in s0.backing)
    && (forall p :: p in s0.backing ==> s.backing[p] == s0.backing[p])
    && (forall p :: lo <= p < hi ==> s.backing[p] in home && home[s.backing[p]] == p)
    && (forall f :: f in home ==>
      lo <= home[f] < hi && s.backing[home[f]] == f && 1 <= f < |s.bits| && !s0.bits[f] && s.refs[f] == 1)
    && (forall f :: 0 <= f < |s.bits| ==> s.bits[f] == (s0.bits[f] || f in home))
    && (forall f :: 0 <= f < |s.bits| && s0.bits[f] ==> s.refs[f] == s0.refs[f])
  }

  /** One page more at the end. */
  lemma ExtraMap(s0: Phys, s: Phys, lo: nat, hi: nat, home: map<nat, nat>, f: nat)
    requires Extra(s0, s, lo, hi, home) && lo <= hi && hi !in s.backing && 1 <= f < |s.bits| && !s.bits[f]
    ensures Extra(s0, Phys(s.backing[hi := f], s.bits[f := true], s.refs[f := 1]), lo, hi + 1, home[f := hi])
  {
  }

  /** One page less at the start. */
  lemma ExtraUnmap(s0: Phys, s: Phys, lo: nat, hi: nat, home: map<nat, nat>)
    requires Extra(s0, s, lo, hi, home) && lo < hi
    ensures lo in s.backing && 1 <= s.backing[lo] < |s.bits| && s.bits[s.backing[lo]] && s.refs[s.backing[lo]] == 1
    ensures var f := s.backing[lo];
      Extra(s0, Phys(s.backing - {lo}, s.bits[f := false], s.refs[f := 0]), lo + 1, hi, home - {f})
  {
  }

  lemma ExtraStart(s: Phys, lo: nat)
    requires |s.bits| == |s.refs|
    ensures Extra(s, s, lo, lo, map[])
  {
  }

  lemma ExtraNone(s0: Phys, s: Phys, hi: nat, home: map<nat, nat>)
    requires Extra(s0, s, hi, hi, home)
    ensures s.backing == s0.backing && s.bits == s0.bits
    ensures forall f :: 0 <= f < |s.bits| && s.bits[f] ==> s.refs[f] == s0.refs[f]
  {
    assert forall p :: p in s.backing <==> p in s0.backing;
  }

  class Pages {
    const pmm: FrameAllocator
    /** Pages that hal_vm_map fails to map. */
    const refused: set<nat>
    var bitmap: seq<bool>
    var hint: nat
    /** The frame behind each mapped page. */
    var backing: map<nat, nat>

    ghost predicate Ok()
      reads this, pmm
    {
      pmm.Valid() && |bitmap| == HEAP_PAGES && hint < HEAP_PAGES && Backed(bitmap, backing, pmm.bits, pmm.refs)
    }

    constructor (pmm: FrameAllocator, refused: set<nat>)
      requires pmm.Valid()
      ensures this.pmm == pmm && this.refused == refused && Ok() && bitmap == seq(HEAP_PAGES, _ => false)
      ensures backing == map[]
    {
      this.pmm, this.refused := pmm, refused;
      bitmap, hint, backing := seq(HEAP_PAGES, _ => false), 0, map[];
    }

    /** heap_va_alloc: first fit in hint..end, then in 0..hint. */
    method VaAlloc(n: nat) returns (ok: bool, first: nat)
      requires |bitmap| == HEAP_PAGES && hint < HEAP_PAGES
      modifies this`bitmap, this`hint
      ensures |bitmap| == HEAP_PAGES && hint < HEAP_PAGES
      ensures ok <==> n > 0 && !(NoRun(old(bitmap), old(hint), HEAP_PAGES, n) && NoRun(old(bitmap), 0, old(hint), n))
      ensures ok ==>
        first + n <= HEAP_PAGES && FreeRun(old(bitmap), first, n) && bitmap == Filled(old(bitmap), first, n, true)
      ensures ok ==> Chosen(old(bitmap), old(hint), n, first) && hint == HintAfter(first, n)
      ensures !ok ==> bitmap == old(bitmap) && hint == old(hint)
    {
      if n == 0 || n > HEAP_PAGES { return false, 0; }
      ok, first := Scan(bitmap, hint, HEAP_PAGES, n);
      if ok { assert FreeRun(bitmap, first, n); }
      if !ok {
        ok, first := Scan(bitmap, 0, hint, n);
        if ok { assert FreeRun(bitmap, first, n); }
      }
      if ok {
        SetRun(first, n, true);
        hint := if first + n < HEAP_PAGES then first + n else 0;
      }
    }

    ghost function P(): Phys
      reads this, pmm
    {
      Phys(backing, pmm.bits, pmm.refs)
    }

    ghost function Now(): Space
      reads this, pmm
    {
      Space(bitmap, hint, pmm.bits, refused)
    }

    /** The mapping loop of a large allocation; it stops at the first page that gets no frame or
        is not mapped. */
    method MapPages(first: nat, n: nat) returns (mapped: nat, ghost home: map<nat, nat>)
      requires pmm.Valid() && forall p :: first <= p < first + n ==> p !in backing
      modifies this`backing, pmm
      ensures pmm.Valid() && mapped <= n && Extra(old(P()), P(), first, first + mapped, home)
      ensures mapped == n <==> n <= |FreeSet(old(pmm.bits))| && Mappable(refused, first, n)
      ensures |FreeSet(old(pmm.bits))| == |FreeSet(pmm.bits)| + mapped
    {
      hide Extra, FreeSet, Mappable;
      ghost var s0 := P();
      MappableNext(refused, first, 0, n);
      home, mapped := map[], 0;
      ExtraStart(s0, first);
      while mapped < n
        invariant 0 <= mapped <= n && pmm.Valid() && Extra(s0, P(), first, first + mapped, home)
        invariant forall p :: first + mapped <= p < first + n ==> p !in backing
        invariant Mappable(refused, first, mapped) && |FreeSet(s0.bits)| == |FreeSet(pmm.bits)| + mapped
      {
        var ok;
        ok, home := MapPage(first + mapped, s0, first, home);
        MappableNext(refused, first, mapped, n);
        if !ok { break; }
        mapped := mapped + 1;
      }
    }

    /** A frame for page `p`; it goes back when the page is not mapped. */
    method MapPage(p: nat, ghost s0: Phys, ghost lo: nat, ghost home: map<nat, nat>)
      returns (ok: bool, ghost home': map<nat, nat>)
      requires pmm.Valid() && lo <= p && Extra(s0, P(), lo, p, home) && p !in backing
      modifies this`backing, pmm
      ensures pmm.Valid() && Extra(s0, P(), lo, if ok then p + 1 else p, home')
      ensures backing.Keys <= old(backing).Keys + {p}
      ensures ok <==> p !in refused && |FreeSet(old(pmm.bits))| > 0
      ensures if ok then |FreeSet(old(pmm.bits))| == |FreeSet(pmm.bits)| + 1 else pmm.bits == old(pmm.bits)
    {
      ghost var s := P();
      home' := home;
      var addr := pmm.FrameAlloc();
      if addr == 0 {
        assert FreeSet(s.bits) == {};
        return false, home;
      }
      var f := addr / FRAME;
      FrameTaken(s.bits, f);
      if p in refused {
        pmm.FrameFree(addr);
        assert pmm.bits == s.bits;
        return false, home;
      }
      backing := backing[p := f];
      ExtraMap(s0, s, lo, p, home, f);
      return true, home[f := p];
    }

    /** The unmapping loops of kfree and of a failed large allocation. */
    method UnmapPages(first: nat, n: nat, ghost s0: Phys, ghost home: map<nat, nat>)
      requires pmm.Valid() && Extra(s0, P(), first, first + n, home)
      modifies this`backing, pmm
      ensures pmm.Valid() && backing == s0.backing && pmm.bits == s0.bits
      ensures forall f :: 0 <= f < |pmm.bits| && pmm.bits[f] ==> pmm.refs[f] == s0.refs[f]
      ensures |FreeSet(pmm.bits)| == |FreeSet(old(pmm.bits))| + n
    {
      hide Extra, FreeSet;
      var i := 0;
      ghost var left := home;
      while i < n
        invariant 0 <= i <= n && pmm.Valid() && Extra(s0, P(), first + i, first + n, left)
        invariant |FreeSet(pmm.bits)| == |FreeSet(old(pmm.bits))| + i
      {
        left := UnmapPage(first + i, s0, first + n, left);
        i := i + 1;
      }
      ExtraNone(s0, P(), first + n, left);
    }

    method UnmapPage(p: nat, ghost s0: Phys, ghost hi: nat, ghost home: map<nat, nat>)
      returns (ghost left: map<nat, nat>)
      requires pmm.Valid() && p < hi && Extra(s0, P(), p, hi, home)
      modifies this`backing, pmm
      ensures pmm.Valid() && Extra(s0, P(), p + 1, hi, left) && |FreeSet(pmm.bits)| == |FreeSet(old(pmm.bits))| + 1
    {
      hide Extra, FreeSet;
      ExtraUnmap(s0, P(), p, hi, home);
      var f := backing[p];
      FrameGiven(pmm.bits, f);
      left := home - {f};
      backing := backing - {p};
      pmm.FrameFree(f * FRAME);
    }

    /** `n` pages with frames: the page part of a large allocation, and heap_page_alloc for one
        page. On failure the pages, their frames and the mappings are exactly as before, but the
        hint has moved if it was not for want of pages. */
    method AllocPages(n: nat) returns (ok: bool, first: nat)
      requires Ok()
      modifies this`bitmap, this`hint, this`backing, pmm
      ensures Ok() && (ok <==> Granted(old(Now()), n))
      ensures if ok then Took(old(Now()), Now(), first, n) else Missed(old(Now()), Now(), n)
      ensures ok ==>
        n > 0 && first + n <= HEAP_PAGES && FreeRun(old(bitmap), first, n)
          && bitmap == Filled(old(bitmap), first, n, true)
      ensures !ok ==> bitmap == old(bitmap) && backing == old(backing) && pmm.bits == old(pmm.bits)
      ensures forall p :: p in old(backing) ==> p in backing && backing[p] == old(backing)[p]
      ensures |pmm.bits| == |old(pmm.bits)|
      ensures forall f :: 0 <= f < |old(pmm.bits)| && old(pmm.bits)[f] ==>
        pmm.bits[f] && pmm.refs[f] == old(pmm.refs)[f]
    {
      hide Extra, FreeSet, NoRun, FirstRun, FreeRun, Filled, Took, Missed;
      ghost var s0, bitmap0 := P(), bitmap;
      ok, first := VaAlloc(n);
      if !ok {
        NoneChosen(old(bitmap), old(hint), n);
        assert Missed(old(Now()), Now(), n) by { MissedNone(old(Now()), n); }
        return;
      }
      GrantedAt(old(Now()), n, first);
      assert forall p :: first <= p < first + n ==> p !in backing by { RunUnmapped(bitmap0, s0, first, n); }
      var mapped, home := MapPages(first, n);
      if mapped < n {
        UnmapPages(first, mapped, s0, home);
        VaFree(first, n);
        FilledBack(bitmap0, first, n);
        StillBacked(bitmap0, s0, pmm.bits, pmm.refs);
        MissedAt(old(Now()), Now(), n, first);
        return false, 0;
      }
      ExtraBacked(bitmap0, s0, P(), first, n, home);
      TookIs(old(Now()), Now(), first, n);
    }

    /** The page part of freeing a large block: its pages and frames, and nothing else, become
        free. */
    method FreePages(first: nat, n: nat)
      requires Ok() && first + n <= HEAP_PAGES && forall p :: first <= p < first + n ==> bitmap[p]
      modifies this`bitmap, this`hint, this`backing, pmm
      ensures Ok() && bitmap == Filled(old(bitmap), first, n, false) && Returned(old(Now()), Now(), first, n)
      ensures backing == Without(old(P()), first, n).backing && pmm.bits == Without(old(P()), first, n).bits
    {
      hide Extra, Backed, Without, HomeOf;
      ghost var s, bitmap0 := P(), bitmap;
      ghost var s0, home := Without(s, first, n), HomeOf(s, first, n);
      ExtraTaken(bitmap0, s, first, n);
      WithoutLess(s, first, n);
      UnmapPages(first, n, s0, home);
      VaFree(first, n);
      WithoutBacked(bitmap0, s, P(), first, n);
    }

    /** The loops over heap_va_set and heap_va_clear. */
    method SetRun(first: nat, n: nat, x: bool)
      requires first + n <= |bitmap|
      modifies this`bitmap
      ensures bitmap == Filled(old(bitmap), first, n, x)
    {
      var j := first;
      while j < first + n
        invariant first <= j <= first + n && |bitmap| == old(|bitmap|)
        invariant forall k :: 0 <= k < |bitmap| ==> bitmap[k] == if first <= k < j then x else old(bitmap)[k]
      {
        bitmap := bitmap[j := x];
        j := j + 1;
      }
    }

    /** heap_va_free. */
    method VaFree(first: nat, n: nat)
      requires |bitmap| == HEAP_PAGES && hint < HEAP_PAGES && first + n <= HEAP_PAGES
      modifies this`bitmap, this`hint
      ensures bitmap == Filled(old(bitmap), first, n, false) && hint == HintBack(old(hint), first)
    {
      SetRun(first, n, false);
      if first < hint { hint := first; }
    }
  }

  lemma WithoutLess(s: Phys, first: nat, n: nat)
    ensures |Without(s, first, n).bits| == |s.bits| && Without(s, first, n).refs == s.refs
    ensures forall f :: 0 <= f < |s.bits| && Without(s, first, n).bits[f] ==> s.bits[f]
  {
  }

  lemma MissedNone(s: Space, n: nat)
    requires n > 0 ==> forall first :: !Chosen(s.bitmap, s.hint, n, first)
    ensures Missed(s, s, n)
  {
    hide Chosen;
  }

  lemma MissedAt(s: Space, s': Space, n: nat, first: nat)
    requires n > 0 && Chosen(s.bitmap, s.hint, n, first) && s' == s.(hint := HintBack(HintAfter(first, n), first))
    ensures Missed(s, s', n)
  {
    hide Chosen;
    forall a | Chosen(s.bitmap, s.hint, n, a) ensures a == first { ChosenOnce(s.bitmap, s.hint, n, a, first); }
  }

  lemma TookIs(s: Space, s': Space, first: nat, n: nat)
    requires Chosen(s.bitmap, s.hint, n, first) && first + n <= |s.bitmap|
    requires s' == s.(bitmap := Filled(s.bitmap, first, n, true), hint := HintAfter(first, n), bits := s'.bits)
    requires |s'.bits| == |s.bits| && (forall f :: 0 <= f < |s.bits| && s.bits[f] ==> s'.bits[f])
    requires |FreeSet(s'.bits)| + n == |FreeSet(s.bits)|
    ensures Took(s, s', first, n)
  {
  }

  lemma NoneChosen(bitmap: seq<bool>, hint: nat, n: nat)
    requires n == 0 || (NoRun(bitmap, hint, HEAP_PAGES, n) && NoRun(bitmap, 0, hint, n))
    ensures n > 0 ==> forall first :: !Chosen(bitmap, hint, n, first)
  {
  }

  lemma GrantedAt(s: Space, n: nat, first: nat)
    requires n > 0 && Chosen(s.bitmap, s.hint, n, first)
    ensures Granted(s, n) <==> n <= |FreeSet(s.bits)| && Mappable(s.refused, first, n)
  {
    hide Chosen, FreeSet;
    forall a | Chosen(s.bitmap, s.hint, n, a) ensures a == first { ChosenOnce(s.bitmap, s.hint, n, a, first); }
  }

  lemma RunUnmapped(bitmap: seq<bool>, s: Phys, first: nat, n: nat)
    requires Backed(bitmap, s.backing, s.bits, s.refs) && FreeRun(bitmap, first, n)
    ensures forall p :: first <= p < first + n ==> p !in s.backing
  {
  }

  lemma StillBacked(bitmap: seq<bool>, s0: Phys, bits: seq<bool>, refs: seq<nat>)
    requires Backed(bitmap, s0.backing, s0.bits, s0.refs) && bits == s0.bits && |refs| == |s0.refs|
    requires forall f :: 0 <= f < |bits| && bits[f] ==> refs[f] == s0.refs[f]
    ensures Backed(bitmap, s0.backing, bits, refs)
  {
  }

  lemma ExtraBacked(bitmap: seq<bool>, s0: Phys, s: Phys, first: nat, n: nat, home: map<nat, nat>)
    requires Backed(bitmap, s0.backing, s0.bits, s0.refs) && first + n <= |bitmap|
    requires Extra(s0, s, first, first + n, home)
    ensures Backed(Filled(bitmap, first, n, true), s.backing, s.bits, s.refs) && |s.bits| == |s0.bits|
    ensures forall p :: p in s0.backing ==> p in s.backing && s.backing[p] == s0.backing[p]
    ensures forall f :: 0 <= f < |s0.bits| && s0.bits[f] ==> s.bits[f] && s.refs[f] == s0.refs[f]
  {
  }

  /** Frame `f` is behind one of the pages first..first+n. */
  ghost predicate Behind(backing: map<nat, nat>, first: nat, n: nat, f: nat) {
    exists p :: first <= p < first + n && p in backing && backing[p] == f
  }

  /** Without pages first..first+n and the frames behind them. */
  ghost function Without(s: Phys, first: nat, n: nat): Phys {
    Phys(map p | p in s.backing && !(first <= p < first + n) :: s.backing[p],
         seq(|s.bits|, f requires 0 <= f < |s.bits| => s.bits[f] && !Behind(s.backing, first, n, f)), s.refs)
  }

  ghost function HomePage(backing: map<nat, nat>, first: nat, n: nat, f: nat): nat
    requires Behind(backing, first, n, f)
  {
    var p :| first <= p < first + n && p in backing && backing[p] == f;
    p
  }

  ghost function HomeOf(s: Phys, first: nat, n: nat): map<nat, nat> {
    map f | 0 <= f < |s.bits| && Behind(s.backing, first, n, f) :: HomePage(s.backing, first, n, f)
  }

  lemma HomeIs(s: Phys, first: nat, n: nat)
    ensures var home := HomeOf(s, first, n);
      && (forall f :: 0 <= f < |s.bits| ==> (f in home <==> Behind(s.backing, first, n, f)))
      && (forall f :: f in home ==>
        0 <= f < |s.bits| && first <= home[f] < first + n && home[f] in s.backing && s.backing[home[f]] == f)
  {
  }

  lemma ExtraTaken(bitmap: seq<bool>, s: Phys, first: nat, n: nat)
    requires Backed(bitmap, s.backing, s.bits, s.refs) && first + n <= |bitmap| && forall p ::
      first <= p < first + n ==> bitmap[p]
    ensures Extra(Without(s, first, n), s, first, first + n, HomeOf(s, first, n))
  {
    HomeIs(s, first, n);
    hide HomeOf;
    var home := HomeOf(s, first, n);
    forall p | first <= p < first + n ensures p in s.backing && s.backing[p] in home && home[s.backing[p]] == p {
      assert p in s.backing;
      assert Behind(s.backing, first, n, s.backing[p]);
    }
  }

  lemma WithoutBacked(bitmap: seq<bool>, s: Phys, s': Phys, first: nat, n: nat)
    requires Backed(bitmap, s.backing, s.bits, s.refs) && first + n <= |bitmap|
    requires s'.backing == Without(s, first, n).backing && s'.bits == Without(s, first, n).bits
    requires |s'.refs| == |s'.bits|
    requires forall f :: 0 <= f < |s'.bits| && s'.bits[f] ==> s'.refs[f] == s.refs[f]
    ensures Backed(Filled(bitmap, first, n, false), s'.backing, s'.bits, s'.refs)
  {
    forall p | p in s'.backing ensures s'.bits[s'.backing[p]] {
      assert !Behind(s.backing, first, n, s.backing[p]);
    }
  }

  /** Mapped pages are exactly those taken in the bitmap, each with an allocated frame of its
      own. */
  ghost predicate Backed(bitmap: seq<bool>, backing: map<nat, nat>, bits: seq<bool>, refs: seq<nat>) {
    && |bits| == |refs|
    && (forall p: nat :: p in backing <==> p < |bitmap| && bitmap[p])
    && (forall p :: p in backing ==> 1 <= backing[p] < |bits| && bits[backing[p]] && refs[backing[p]] == 1)
    && (forall p, q :: p in backing && q in backing && backing[p] == backing[q] ==> p == q)
  }
}
