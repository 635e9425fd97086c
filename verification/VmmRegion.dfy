/** Regions of user memory: va_alloc_region and va_free_region. */
module VmmRegion {
  import opened Common
  import opened PteBits
  import opened PageTables
  import opened Pmm
  import opened Bitmap
  import opened Vmm
  import opened VmmMap
  import opened VmmUnmap

  /** One of the pages lo..hi of space `pd` is backed by `f`. */
  ghost predicate Backs(mem: Memory, pd: nat, lo: nat, hi: nat, f: nat) {
    exists a: nat, b: nat :: UserMaps(mem, pd, a, b, f) && lo <= a * ENTRIES + b < hi
  }

  /** Every frame behind pages lo..hi of `pd` lost one reference, and nothing else changed. */
  ghost predicate Released(v: Vm, v': Vm, pd: nat, lo: nat, hi: nat) {
    && v' == v.(bits := v'.bits, refs := v'.refs) && |v'.bits| == |v'.refs| == |v.bits| == |v.refs|
    && (forall f :: 0 <= f < |v.bits| ==>
          if Backs(v.mem, pd, lo, hi, f)
            then v.refs[f] > 0 && v'.refs[f] == v.refs[f] - 1 && v'.bits[f] == (v.refs[f] > 1)
          else v'.refs[f] == v.refs[f] && v'.bits[f] == v.bits[f])
  }

  lemma MappedAllocated(v: Vm, pd: nat, a: nat, b: nat, f: nat)
    requires Inv(v) && pd in v.spaces && UserMaps(v.mem, pd, a, b, f)
    ensures 1 <= f < |v.bits| && v.bits[f] && v.refs[f] >= 1 && f !in v.role
  {
    assert MapsIn(v.mem, pd, f) && pd in Sharers(v, f);
    SubsetSize({pd}, Sharers(v, f));
  }

  /** Whether `f` is behind one page more. */
  lemma BacksNext(mem: Memory, pd: nat, lo: nat, a: nat, b: nat, f: nat)
    requires a < KERNEL_PD && b < ENTRIES && lo <= a * ENTRIES + b
    ensures Backs(mem, pd, lo, a * ENTRIES + b + 1, f) <==>
      Backs(mem, pd, lo, a * ENTRIES + b, f) || UserMaps(mem, pd, a, b, f)
  {
  }

  /** The page at which the loop stands gives up its reference. */
  ghost function PageReleased(v: Vm, w: Word): Vm
    requires |v.bits| == |v.refs|
  {
    var f := FrameOf(w);
    if 0 < f < |v.bits| && v.bits[f] then
      v.(refs := if v.refs[f] > 0 then v.refs[f := v.refs[f] - 1] else v.refs,
         bits := if v.refs[f] <= 1 then v.bits[f := false] else v.bits)
    else v
  }

  lemma ReleasedNext(v: Vm, v1: Vm, pd: nat, lo: nat, a: nat, b: nat)
    requires Inv(v) && pd in v.spaces && a < KERNEL_PD && b < ENTRIES && lo <= a * ENTRIES + b
    requires Released(v, v1, pd, lo, a * ENTRIES + b)
    ensures Released(v, PageReleased(v1, Pte(v.mem, pd, a, b)), pd, lo, a * ENTRIES + b + 1)
  {
    hide Inv;
    var p, w := a * ENTRIES + b, Pte(v.mem, pd, a, b);
    if w.present {
      assert UserMaps(v.mem, pd, a, b, w.frame);
      MappedAllocated(v, pd, a, b, w.frame);
      NotYet(v, pd, lo, a, b, w.frame);
    }
    forall f: nat | f < |v.bits| { BacksNext(v.mem, pd, lo, a, b, f); }
  }

  /** A frame backs at most one page of a space. */
  lemma NotYet(v: Vm, pd: nat, lo: nat, a: nat, b: nat, f: nat)
    requires Inv(v) && pd in v.spaces && UserMaps(v.mem, pd, a, b, f)
    ensures !Backs(v.mem, pd, lo, a * ENTRIES + b, f)
  {
  }

  lemma PageIndices(p: nat)
    ensures PdIndex(p * PAGE) == p / ENTRIES && PtIndex(p * PAGE) == p % ENTRIES && p * PAGE % PAGE == 0
  {
  }

  /** The frame at a physical address is given up, unless the address is 0. */
  method ReleaseAt(m: Machine, phys: nat, ghost w: Word)
    requires m.pmm.Valid() && phys == FrameOf(w) * PAGE
    modifies m.pmm
    ensures m.pmm.Valid() && m.V() == PageReleased(old(m.V()), w)
  {
    if phys != 0 { m.pmm.FrameFree(phys); }
  }

  /** The body of the first loop of va_free_region. */
  method FreePage(m: Machine, pd: nat, p: nat, ghost v: Vm, ghost lo: nat)
    requires m.pmm.Valid() && Inv(v) && pd in v.spaces && lo <= p < KERNEL_PAGE && Released(v, m.V(), pd, lo, p)
    modifies m.pmm
    ensures m.pmm.Valid() && Released(v, m.V(), pd, lo, p + 1)
  {
    hide Inv, Released, PdIndex, PtIndex;
    PageIndices(p);
    ghost var a, b := p / ENTRIES, p % ENTRIES;
    ghost var v1 := m.V();
    assert v1.mem == v.mem by { SameMemory(v, v1, pd, lo, p); }
    ReleasedNext(v, v1, pd, lo, a, b);
    var phys := VirtToPhys(m.mem, pd, p * PAGE);
    ReleaseAt(m, phys, Pte(v.mem, pd, a, b));
  }

  lemma SameMemory(v: Vm, v': Vm, pd: nat, lo: nat, hi: nat)
    requires Released(v, v', pd, lo, hi)
    ensures v'.mem == v.mem && v'.spaces == v.spaces && v'.kernel == v.kernel && v'.role == v.role
  {
  }

  /** User mappings after pages lo..hi of `pd` went. */
  lemma GoneMaps(v: Vm, v1: Vm, v2: Vm, pd: nat, lo: nat, hi: nat)
    requires v1.mem == v.mem && v1.spaces == v.spaces && Unmapped(v1, v2, pd, lo, hi) && hi <= KERNEL_PAGE
    ensures forall q, a: nat, b: nat, f: nat :: q in v.spaces ==>
      (UserMaps(v2.mem, q, a, b, f) <==> UserMaps(v.mem, q, a, b, f) && !(q == pd && lo <= a * ENTRIES + b < hi))
    ensures forall q, a: nat, b: nat :: q in v.spaces && a < KERNEL_PD && b < ENTRIES ==>
      Pte(v2.mem, q, a, b) == ZERO || Pte(v2.mem, q, a, b) == Pte(v.mem, q, a, b)
    ensures v2.spaces == v.spaces
  {
  }

  lemma GoneMapsIn(v: Vm, v1: Vm, v2: Vm, pd: nat, lo: nat, hi: nat, q: nat, f: nat)
    requires Inv(v) && q in v.spaces && v1.mem == v.mem && v1.spaces == v.spaces && Unmapped(v1, v2, pd, lo, hi)
    requires hi <= KERNEL_PAGE
    ensures MapsIn(v2.mem, q, f) <==> MapsIn(v.mem, q, f) && !(q == pd && Backs(v.mem, pd, lo, hi, f))
  {
    hide Unmapped, Shape, Tabled, KernelHalf, Exclusive, Counted;
    GoneMaps(v, v1, v2, pd, lo, hi);
    if MapsIn(v.mem, q, f) {
      var a: nat, b: nat :| UserMaps(v.mem, q, a, b, f);
      if q == pd && lo <= a * ENTRIES + b < hi {
        assert Backs(v.mem, pd, lo, hi, f);
      } else {
        assert UserMaps(v2.mem, q, a, b, f);
      }
    }
  }

  lemma GoneSharers(v: Vm, v1: Vm, v2: Vm, pd: nat, lo: nat, hi: nat, f: nat)
    requires Inv(v) && pd in v.spaces && v1.mem == v.mem && v1.spaces == v.spaces && Unmapped(v1, v2, pd, lo, hi)
    requires hi <= KERNEL_PAGE
    ensures Sharers(v2, f) == if Backs(v.mem, pd, lo, hi, f) then Sharers(v, f) - {pd} else Sharers(v, f)
    ensures Backs(v.mem, pd, lo, hi, f) ==> pd in Sharers(v, f)
  {
    hide Inv;
    forall q | q in v.spaces { GoneMapsIn(v, v1, v2, pd, lo, hi, q, f); }
    if Backs(v.mem, pd, lo, hi, f) { assert MapsIn(v.mem, pd, f); }
  }

  lemma GoneSpaces(v1: Vm, v2: Vm, pd: nat, lo: nat, hi: nat)
    requires Unmapped(v1, v2, pd, lo, hi)
    ensures v2.spaces == v1.spaces && |v2.mem| == |v2.bits| == |v2.refs| == |v1.mem| == |v1.bits| == |v1.refs|
    ensures Shape(v2) && Tabled(v2) && (KernelHalf(v1) ==> KernelHalf(v2))
    ensures forall f :: f in v2.role ==> f in v1.role
    ensures forall f :: 0 <= f < |v1.bits| && f !in v1.role ==>
      v2.bits[f] == v1.bits[f] && v2.refs[f] == v1.refs[f] && v2.mem[f] == v1.mem[f]
  {
  }

  lemma GoneBacked(v: Vm, v1: Vm, v2: Vm, pd: nat, lo: nat, hi: nat, q: nat, a: nat, b: nat, f: nat)
    requires Inv(v) && pd in v.spaces && Released(v, v1, pd, lo, hi) && Unmapped(v1, v2, pd, lo, hi)
    requires hi <= KERNEL_PAGE
    requires q in v.spaces && UserMaps(v2.mem, q, a, b, f)
    ensures 1 <= f < |v2.mem| == |v2.bits| && f !in v2.role && v2.bits[f] && UserMaps(v.mem, q, a, b, f)
  {
    GoneMaps(v, v1, v2, pd, lo, hi);
    GoneSpaces(v1, v2, pd, lo, hi);
    GoneSharers(v, v1, v2, pd, lo, hi, f);
    MappedAllocated(v, q, a, b, f);
    hide Unmapped, Shape, Tabled, KernelHalf, Exclusive, DataOk;
    assert q in Sharers(v2, f);
    if Backs(v.mem, pd, lo, hi, f) { TwoElements(Sharers(v, f), pd, q); }
  }

  lemma GoneCounted(v: Vm, v1: Vm, v2: Vm, pd: nat, lo: nat, hi: nat, f: nat)
    requires Inv(v) && pd in v.spaces && Released(v, v1, pd, lo, hi) && Unmapped(v1, v2, pd, lo, hi)
    requires hi <= KERNEL_PAGE
    requires f < |v.mem|
    ensures f < |v2.refs| && |Sharers(v2, f)| <= v2.refs[f]
  {
    GoneSpaces(v1, v2, pd, lo, hi);
    GoneSharers(v, v1, v2, pd, lo, hi, f);
    if f in v.role {
      RoleUnshared(v, f);
    }
  }

  lemma RoleUnshared(v: Vm, f: nat)
    requires |v.mem| == |v.bits| && DataOk(v) && f in v.role
    ensures Sharers(v, f) == {}
  {
    forall q | q in v.spaces ensures !MapsIn(v.mem, q, f) {}
  }

  lemma GoneData(v: Vm, v1: Vm, v2: Vm, pd: nat, lo: nat, hi: nat)
    requires Inv(v) && pd in v.spaces && Released(v, v1, pd, lo, hi) && Unmapped(v1, v2, pd, lo, hi)
    requires hi <= KERNEL_PAGE
    ensures |v2.mem| == |v2.bits| == |v2.refs| && DataOk(v2) && Exclusive(v2) && Counted(v2)
  {
    GoneMaps(v, v1, v2, pd, lo, hi);
    GoneSpaces(v1, v2, pd, lo, hi);
    forall f: nat | f < |v2.mem| ensures |Sharers(v2, f)| <= v2.refs[f] { GoneCounted(v, v1, v2, pd, lo, hi, f); }
    forall q, a: nat, b: nat, f: nat | q in v.spaces && UserMaps(v2.mem, q, a, b, f)
      ensures 1 <= f < |v2.mem| && f !in v2.role && v2.bits[f]
    {
      GoneBacked(v, v1, v2, pd, lo, hi, q, a, b, f);
    }
    GoneExclusive(v, v1, v2, pd, lo, hi);
  }

  lemma GoneExclusive(v: Vm, v1: Vm, v2: Vm, pd: nat, lo: nat, hi: nat)
    requires Inv(v) && pd in v.spaces && Released(v, v1, pd, lo, hi) && Unmapped(v1, v2, pd, lo, hi)
    requires hi <= KERNEL_PAGE
    ensures Exclusive(v2)
  {
    hide Unmapped, Shape, Tabled, KernelHalf, DataOk, Counted;
    GoneMaps(v, v1, v2, pd, lo, hi);
    forall q, a: nat, b: nat, f: nat, q' | q in v2.spaces && q' in v2.spaces && UserMaps(v2.mem, q, a, b, f)
        && Pte(v2.mem, q, a, b).writable && MapsIn(v2.mem, q', f)
      ensures q' == q
    {
      var c: nat, d: nat :| UserMaps(v2.mem, q', c, d, f);
      assert UserMaps(v.mem, q', c, d, f) && UserMaps(v.mem, q, a, b, f);
    }
  }

  /** Dropping the references of a range and unmapping it keeps the invariant. */
  lemma ReleasedInv(v: Vm, v1: Vm, v2: Vm, pd: nat, lo: nat, hi: nat)
    requires Inv(v) && pd in v.spaces && Released(v, v1, pd, lo, hi) && Unmapped(v1, v2, pd, lo, hi)
    requires hi <= KERNEL_PAGE
    ensures Inv(v2) && v2.spaces == v.spaces
    ensures forall q, a: nat, b: nat :: q in v.spaces && a < KERNEL_PD && b < ENTRIES ==>
      PageAt(v2.mem, q, a, b) == if q == pd && lo <= a * ENTRIES + b < hi then None else PageAt(v.mem, q, a, b)
  {
    GoneData(v, v1, v2, pd, lo, hi);
    GoneSpaces(v1, v2, pd, lo, hi);
    GoneViews(v, v1, v2, pd, lo, hi);
    hide Released, Unmapped;
  }

  lemma GoneViews(v: Vm, v1: Vm, v2: Vm, pd: nat, lo: nat, hi: nat)
    requires Inv(v) && pd in v.spaces && Released(v, v1, pd, lo, hi) && Unmapped(v1, v2, pd, lo, hi)
    requires hi <= KERNEL_PAGE
    ensures forall q, a: nat, b: nat :: q in v.spaces && a < KERNEL_PD && b < ENTRIES ==>
      PageAt(v2.mem, q, a, b) == if q == pd && lo <= a * ENTRIES + b < hi then None else PageAt(v.mem, q, a, b)
  {
    forall q, a: nat, b: nat | q in v.spaces && a < KERNEL_PD && b < ENTRIES
      ensures PageAt(v2.mem, q, a, b) == if q == pd && lo <= a * ENTRIES + b < hi then None else PageAt(v.mem, q, a, b)
    {
      var w := Pte(v.mem, q, a, b);
      if w.present { assert UserMaps(v.mem, q, a, b, w.frame); }
    }
  }

  /** va_free_region on user pages: the pages disappear from this space only, and every frame
      keeps a reference for each space that still maps it. */
  method FreeRegion(m: Machine, pd: nat, first: nat, count: nat) returns (ghost mid: Vm)
    requires m.Ok() && pd in m.spaces && first + count <= KERNEL_PAGE
    modifies m`mem, m`role, m.pmm
    ensures m.Ok() && m.spaces == old(m.spaces)
    ensures Released(old(m.V()), mid, pd, first, first + count) && Unmapped(mid, m.V(), pd, first, first + count)
    ensures RowsGone(mid, m.V(), pd, first, first + count) && OthersSame(m.spaces, old(m.mem), m.mem, pd)
    ensures forall q, a: nat, b: nat :: q in m.spaces && a < KERNEL_PD && b < ENTRIES ==>
      PageAt(m.mem, q, a, b) == if q == pd && first <= a * ENTRIES + b < first + count then None
        else PageAt(old(m.mem), q, a, b)
  {
    hide Inv, Released, Unmapped, Base, RowsGone;
    ghost var v := m.V();
    ReleasedNone(v, pd, first);
    var i := 0;
    while i < count
      invariant 0 <= i <= count && m.pmm.Valid() && Released(v, m.V(), pd, first, first + i)
    {
      FreePage(m, pd, first + i, v, first);
      i := i + 1;
    }
    mid := m.V();
    ReleasedBase(v, mid, pd, first, first + count);
    UnmapRange(m, pd, first, count);
    ReleasedInv(v, mid, m.V(), pd, first, first + count);
    ReleasedOthers(v, mid, m.V(), pd, first, first + count);
  }

  lemma UnmappedOthers(v: Vm, v': Vm, pd: nat, lo: nat, hi: nat)
    requires Unmapped(v, v', pd, lo, hi)
    ensures OthersSame(v.spaces, v.mem, v'.mem, pd) && TablesFreed(v, v', pd, lo, hi)
  {
    hide Base, TablesFreed;
  }

  lemma ReleasedOthers(v: Vm, v1: Vm, v2: Vm, pd: nat, lo: nat, hi: nat)
    requires Inv(v) && pd in v.spaces && Released(v, v1, pd, lo, hi) && Unmapped(v1, v2, pd, lo, hi)
    requires hi <= KERNEL_PAGE
    ensures OthersSame(v.spaces, v.mem, v2.mem, pd)
  {
    hide Inv, Released, Unmapped, OthersSame;
    SameMemory(v, v1, pd, lo, hi);
    UnmappedOthers(v1, v2, pd, lo, hi);
  }

  lemma ReleasedNone(v: Vm, pd: nat, lo: nat)
    requires Inv(v)
    ensures Released(v, v, pd, lo, lo)
  {
  }

  lemma ReleasedBase(v: Vm, v1: Vm, pd: nat, lo: nat, hi: nat)
    requires Inv(v) && pd in v.spaces && Released(v, v1, pd, lo, hi) && hi <= KERNEL_PAGE
    ensures Base(v1) && v1.mem == v.mem
  {
    forall f: nat | f < |v.bits| && f in v.role ensures !Backs(v.mem, pd, lo, hi, f) {}
  }
}
