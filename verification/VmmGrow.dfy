/** va_alloc_region on user pages, and its rollback. */
module VmmGrow {
  import opened Common
  import opened PteBits
  import opened PageTables
  import opened Pmm
  import opened Bitmap
  import opened Vmm
  import opened VmmMap
  import opened VmmUnmap
  import opened VmmRegion

  /** A new entry, backed by a frame that was free in `v`. */
  predicate FreshEntry(v: Vm, w: Word, writable: bool, user: bool) {
    w == Leaf(w.frame, writable, user) && 1 <= w.frame < |v.bits| && !v.bits[w.frame]
  }

  /** Between `v` and `v'`, pages mid..hi of `pd` were backed with frames that had been free and
      pages lo..mid were unmapped; every other translation is as in `v`, and the allocator holds
      exactly the new tables and the frames behind mid..hi in addition. */
  ghost predicate Growth(v: Vm, v': Vm, pd: nat, lo: nat, mid: nat, hi: nat, writable: bool, user: bool) {
    && Inv(v') && v'.spaces == v.spaces && v'.kernel == v.kernel && |v'.mem| == |v.mem| == |v.bits| == |v.refs|
    && GrownPtes(v, v', pd, lo, mid, hi, writable, user) && HeldBy(v, v', pd, mid, hi)
    && OthersSame(v.spaces, v.mem, v'.mem, pd) && RowsEntered(v, v', pd, user)
  }

  /** The directory entries of `pd`: those that were there, and new ones. */
  ghost predicate RowsEntered(v: Vm, v': Vm, pd: nat, user: bool) {
    forall a: nat :: a < ENTRIES ==> Entered(Pde(v.mem, pd, a), Pde(v'.mem, pd, a), user)
  }

  ghost predicate GrownPtes(v: Vm, v': Vm, pd: nat, lo: nat, mid: nat, hi: nat, writable: bool, user: bool) {
    forall q, a: nat, b: nat :: q in v.spaces && a < ENTRIES && b < ENTRIES ==>
      if !Touches(q, a, b, pd, lo, hi) then Pte(v'.mem, q, a, b) == Pte(v.mem, q, a, b)
      else if a * ENTRIES + b < mid then !Pte(v'.mem, q, a, b).present
      else FreshEntry(v, Pte(v'.mem, q, a, b), writable, user)
  }

  ghost predicate HeldBy(v: Vm, v': Vm, pd: nat, mid: nat, hi: nat) {
    && |v'.mem| == |v'.bits| == |v'.refs| == |v.mem| == |v.bits| == |v.refs|
    && (forall f :: f in v.role ==> f in v'.role && v'.role[f] == v.role[f])
    && (forall f :: f in v'.role && f !in v.role ==> 0 <= f < |v.bits| && !v.bits[f])
    && (forall f :: 0 <= f < |v.bits| ==>
          && (v'.bits[f] <==> v.bits[f] || f in v'.role || Backs(v'.mem, pd, mid, hi, f))
          && (v'.bits[f] ==> v'.refs[f] == if v.bits[f] then v.refs[f] else 1))
    && (forall f :: 0 <= f < |v.mem| && f !in v'.role ==> v'.mem[f] == v.mem[f])
  }

  lemma GrowthNone(v: Vm, pd: nat, lo: nat, writable: bool, user: bool)
    requires Inv(v)
    ensures Growth(v, v, pd, lo, lo, lo, writable, user)
  {
  }

  /** Backing one page with a free frame keeps the invariant. */
  lemma GrowInv(v: Vm, v1: Vm, v2: Vm, pd: nat, a: nat, b: nat, g: nat, writable: bool, user: bool)
    requires Inv(v) && pd in v.spaces && a < KERNEL_PD && b < ENTRIES && 1 <= g < |v.bits| == |v.refs| && !v.bits[g]
    requires v1 == v.(bits := v.bits[g := true], refs := v.refs[g := 1])
    requires Mapped(v1, v2, pd, a * ENTRIES + b, a * ENTRIES + b + 1, g, writable, user)
    ensures Inv(v2)
  {
    var w := Leaf(g, writable, user);
    FreeUnmapped(v, g);
    assert Pte(v.mem, pd, a, b).present ==> UserMaps(v.mem, pd, a, b, Pte(v.mem, pd, a, b).frame);
    GrowReassigned(v, v1, v2, FrameOf(Pte(v.mem, pd, a, b)), g);
    MappedOne(v, v1, v2, pd, a, b, g, writable, user);
    hide Mapped, TablesTaken, Reassigned;
    RemappedInv(v, v2, pd, a, b, w);
  }

  lemma MappedOne(v: Vm, v1: Vm, v2: Vm, pd: nat, a: nat, b: nat, g: nat, writable: bool, user: bool)
    requires Inv(v) && pd in v.spaces && a < KERNEL_PD && b < ENTRIES && v1.mem == v.mem && v1.spaces == v.spaces
    requires v1.kernel == v.kernel
    requires Mapped(v1, v2, pd, a * ENTRIES + b, a * ENTRIES + b + 1, g, writable, user)
    ensures UserPteChanged(v.spaces, v.mem, v2.mem, pd, a, b, Leaf(g, writable, user))
    ensures Shape(v2) && Tabled(v2) && KernelHalf(v2)
  {
    assert KernelHalf(v1);
  }

  lemma GrowReassigned(v: Vm, v1: Vm, v2: Vm, prev: nat, g: nat)
    requires |v.mem| == |v.bits| == |v.refs| && 1 <= g < |v.bits| && !v.bits[g] && g !in v.role
    requires prev == 0 || (prev < |v.bits| && v.bits[prev])
    requires v1 == v.(bits := v.bits[g := true], refs := v.refs[g := 1]) && TablesTaken(v1, v2)
    ensures Reassigned(v, v2, prev, g)
  {
  }

  lemma HeldNext(v: Vm, v1: Vm, v2: Vm, v3: Vm, pd: nat, mid: nat, hi: nat, next: nat, g: nat)
    requires HeldBy(v, v1, pd, mid, hi) && 1 <= g < |v1.bits| == |v1.refs| && !v1.bits[g] && TablesTaken(v2, v3)
    requires v2 == v1.(bits := v1.bits[g := true], refs := v1.refs[g := 1]) && Shape(v3)
    requires forall f: nat :: f < |v.bits| ==>
      (Backs(v3.mem, pd, mid, next, f) <==> Backs(v1.mem, pd, mid, hi, f) || f == g)
    ensures HeldBy(v, v3, pd, mid, next)
  {
    hide Backs;
  }

  lemma GrowHeld(v: Vm, v1: Vm, v2: Vm, v3: Vm, pd: nat, lo: nat, a: nat, b: nat, g: nat, writable: bool, user: bool)
    requires Growth(v, v1, pd, lo, lo, a * ENTRIES + b, writable, user)
    requires pd in v.spaces && a < KERNEL_PD && b < ENTRIES && lo <= a * ENTRIES + b
    requires 1 <= g < |v1.bits| == |v1.refs| && !v1.bits[g]
    requires v2 == v1.(bits := v1.bits[g := true], refs := v1.refs[g := 1])
    requires Mapped(v2, v3, pd, a * ENTRIES + b, a * ENTRIES + b + 1, g, writable, user)
    ensures HeldBy(v, v3, pd, lo, a * ENTRIES + b + 1)
  {
    hide Inv, GrownPtes, HeldBy, TablesTaken, Backs;
    var hi := a * ENTRIES + b;
    var next := hi + 1;
    forall f: nat | f < |v.bits| ensures Backs(v3.mem, pd, lo, next, f) <==> Backs(v1.mem, pd, lo, hi, f) || f == g {
      GrowBacks(v1, v2, v3, pd, lo, a, b, g, writable, user, f);
    }
    HeldNext(v, v1, v2, v3, pd, lo, hi, next, g);
  }

  lemma GrowBacks(v1: Vm, v2: Vm, v3: Vm, pd: nat, lo: nat, a: nat, b: nat, g: nat, writable: bool, user: bool, f: nat)
    requires pd in v1.spaces && a < KERNEL_PD && b < ENTRIES && lo <= a * ENTRIES + b
    requires v2.mem == v1.mem && v2.spaces == v1.spaces
    requires Mapped(v2, v3, pd, a * ENTRIES + b, a * ENTRIES + b + 1, g, writable, user)
    ensures Backs(v3.mem, pd, lo, a * ENTRIES + b + 1, f) <==> Backs(v1.mem, pd, lo, a * ENTRIES + b, f) || f == g
  {
    assert forall x: nat, y: nat :: UserMaps(v3.mem, pd, x, y, f) <==>
      if x == a && y == b then f == g else UserMaps(v1.mem, pd, x, y, f);
    assert UserMaps(v3.mem, pd, a, b, g);
  }

  /** One page more. */
  lemma GrowStep(v: Vm, v1: Vm, v2: Vm, v3: Vm, pd: nat, lo: nat, a: nat, b: nat, g: nat, writable: bool, user: bool)
    requires Growth(v, v1, pd, lo, lo, a * ENTRIES + b, writable, user)
    requires pd in v.spaces && a < KERNEL_PD && b < ENTRIES && lo <= a * ENTRIES + b
    requires 1 <= g < |v1.bits| == |v1.refs| && !v1.bits[g]
    requires v2 == v1.(bits := v1.bits[g := true], refs := v1.refs[g := 1])
    requires Mapped(v2, v3, pd, a * ENTRIES + b, a * ENTRIES + b + 1, g, writable, user)
    ensures Growth(v, v3, pd, lo, lo, a * ENTRIES + b + 1, writable, user)
  {
    hide HeldBy, GrownPtes, Inv;
    assert |v.bits| == |v1.bits| && !v.bits[g] && v2.mem == v1.mem by { Held(v, v1, pd, lo, a * ENTRIES + b, g); }
    GrowInv(v1, v2, v3, pd, a, b, g, writable, user);
    GrowHeld(v, v1, v2, v3, pd, lo, a, b, g, writable, user);
    GrowPtes(v, v1, v2, v3, pd, lo, a, b, g, writable, user);
    GrowOthers(v, v1, v2, v3, pd, a * ENTRIES + b, a * ENTRIES + b + 1, g, writable, user);
  }

  lemma Held(v: Vm, v1: Vm, pd: nat, mid: nat, hi: nat, g: nat)
    requires HeldBy(v, v1, pd, mid, hi) && g < |v1.bits| && !v1.bits[g]
    ensures |v.bits| == |v1.bits| && !v.bits[g]
  {
  }

  lemma GrowPtes(v: Vm, v1: Vm, v2: Vm, v3: Vm, pd: nat, lo: nat, a: nat, b: nat, g: nat, writable: bool, user: bool)
    requires GrownPtes(v, v1, pd, lo, lo, a * ENTRIES + b, writable, user) && v1.spaces == v.spaces
    requires |v1.mem| == |v.mem|
    requires pd in v.spaces && a < KERNEL_PD && b < ENTRIES && lo <= a * ENTRIES + b
    requires 1 <= g < |v.bits| && !v.bits[g] && v2.mem == v1.mem && v2.spaces == v1.spaces
    requires Mapped(v2, v3, pd, a * ENTRIES + b, a * ENTRIES + b + 1, g, writable, user)
    ensures GrownPtes(v, v3, pd, lo, lo, a * ENTRIES + b + 1, writable, user)
  {
    hide Base, TablesTaken, KernelHalf;
  }

  lemma GrowOthers(v: Vm, v1: Vm, v2: Vm, v3: Vm, pd: nat, lo: nat, hi: nat, g: nat, writable: bool, user: bool)
    requires OthersSame(v.spaces, v.mem, v1.mem, pd) && v2.mem == v1.mem && v2.spaces == v1.spaces == v.spaces
    requires Mapped(v2, v3, pd, lo, hi, g, writable, user)
    ensures OthersSame(v.spaces, v.mem, v3.mem, pd)
  {
    hide Base, TablesTaken, KernelHalf;
  }

  lemma UndoOthers(v: Vm, v1: Vm, v2: Vm, v3: Vm, pd: nat, lo: nat, hi: nat)
    requires OthersSame(v.spaces, v.mem, v1.mem, pd) && v2.mem == v1.mem && v2.spaces == v1.spaces == v.spaces
    requires Unmapped(v2, v3, pd, lo, hi)
    ensures OthersSame(v.spaces, v.mem, v3.mem, pd)
  {
    hide Base, TablesFreed, KernelHalf;
  }

  /** The frame goes back when its page could not be mapped. */
  lemma GrowRefused(v: Vm, v1: Vm, v2: Vm, pd: nat, lo: nat, hi: nat, g: nat, writable: bool, user: bool)
    requires Growth(v, v1, pd, lo, lo, hi, writable, user) && 1 <= g < |v1.bits| == |v1.refs| && !v1.bits[g]
    requires v2 == v1.(refs := v1.refs[g := 0])
    ensures Growth(v, v2, pd, lo, lo, hi, writable, user)
  {
    FreeUnmapped(v1, g);
    assert forall f: nat :: Sharers(v2, f) == Sharers(v1, f);
    assert Inv(v2) by { hide HeldBy, GrownPtes; }
  }

  /** A single page never takes its table with it. */
  lemma OnePageKeepsTables(v: Vm, v': Vm, pd: nat, p: nat)
    requires TablesFreed(v, v', pd, p, p + 1)
    ensures v'.role == v.role && v'.bits == v.bits && v'.refs == v.refs
  {
    assert forall f :: f in v.role ==> f in v'.role;
    assert v'.role.Keys == v.role.Keys;
  }

  lemma UndoBacks(v1: Vm, v2: Vm, v3: Vm, pd: nat, mid: nat, hi: nat, f: nat)
    requires Inv(v1) && pd in v1.spaces && v2.mem == v1.mem && v2.spaces == v1.spaces && mid < hi <= KERNEL_PAGE
    requires Unmapped(v2, v3, pd, mid, mid + 1)
    ensures Backs(v3.mem, pd, mid + 1, hi, f) <==> Backs(v1.mem, pd, mid, hi, f) && !Backs(v1.mem, pd, mid, mid + 1, f)
  {
    hide Unmapped, Shape, Tabled, KernelHalf, Exclusive, Counted;
    GoneMaps(v1, v2, v3, pd, mid, mid + 1);
    if Backs(v3.mem, pd, mid + 1, hi, f) {
      var a: nat, b: nat :| UserMaps(v3.mem, pd, a, b, f) && mid + 1 <= a * ENTRIES + b < hi;
      assert UserMaps(v1.mem, pd, a, b, f);
    }
    if Backs(v1.mem, pd, mid, hi, f) && !Backs(v1.mem, pd, mid, mid + 1, f) {
      var a: nat, b: nat :| UserMaps(v1.mem, pd, a, b, f) && mid <= a * ENTRIES + b < hi;
      assert UserMaps(v3.mem, pd, a, b, f);
    }
  }

  lemma UndoHeld(v: Vm, v1: Vm, v2: Vm, v3: Vm, pd: nat, mid: nat, hi: nat)
    requires HeldBy(v, v1, pd, mid, hi) && Released(v1, v2, pd, mid, mid + 1) && TablesFreed(v2, v3, pd, mid, mid + 1)
    requires forall f: nat :: f < |v.bits| && Backs(v1.mem, pd, mid, mid + 1, f) ==>
      !v.bits[f] && v1.bits[f] && f !in v1.role
    requires forall f: nat :: f < |v.bits| ==>
      (Backs(v3.mem, pd, mid + 1, hi, f) <==> Backs(v1.mem, pd, mid, hi, f) && !Backs(v1.mem, pd, mid, mid + 1, f))
    ensures HeldBy(v, v3, pd, mid + 1, hi)
  {
    hide Backs;
    OnePageKeepsTables(v2, v3, pd, mid);
  }

  lemma UndoPtes(v: Vm, v1: Vm, v2: Vm, v3: Vm, pd: nat, lo: nat, mid: nat, hi: nat, writable: bool, user: bool)
    requires GrownPtes(v, v1, pd, lo, mid, hi, writable, user) && lo <= mid < hi <= KERNEL_PAGE && v1.spaces == v.spaces
    requires v2.mem == v1.mem && v2.spaces == v1.spaces && Unmapped(v2, v3, pd, mid, mid + 1)
    ensures GrownPtes(v, v3, pd, lo, mid + 1, hi, writable, user)
  {
    hide Base, TablesFreed, KernelHalf;
  }

  /** The frame behind a page just grown was free before. */
  lemma FreshBacks(v: Vm, v1: Vm, pd: nat, lo: nat, mid: nat, hi: nat, writable: bool, user: bool, f: nat)
    requires Growth(v, v1, pd, lo, mid, hi, writable, user) && pd in v.spaces && lo <= mid < hi <= KERNEL_PAGE
    requires Backs(v1.mem, pd, mid, mid + 1, f)
    ensures f < |v.bits| == |v1.bits| && !v.bits[f] && v1.bits[f] && f !in v1.role
  {
    hide Shape, Tabled, KernelHalf, Exclusive, Counted, HeldBy;
    var a: nat, b: nat :| UserMaps(v1.mem, pd, a, b, f) && mid <= a * ENTRIES + b < mid + 1;
    MappedAllocated(v1, pd, a, b, f);
    assert Touches(pd, a, b, pd, lo, hi);
    assert |v1.bits| == |v1.mem| by { Sized(v1); }
  }

  lemma Sized(v: Vm)
    requires Inv(v)
    ensures |v.mem| == |v.bits| == |v.refs|
  {
  }

  /** One page of the rollback. */
  lemma UndoStep(v: Vm, v1: Vm, v2: Vm, v3: Vm, pd: nat, lo: nat, mid: nat, hi: nat, writable: bool, user: bool)
    requires Growth(v, v1, pd, lo, mid, hi, writable, user) && pd in v.spaces && lo <= mid < hi <= KERNEL_PAGE
    requires Released(v1, v2, pd, mid, mid + 1) && Unmapped(v2, v3, pd, mid, mid + 1)
    ensures Growth(v, v3, pd, lo, mid + 1, hi, writable, user)
  {
    hide Inv, HeldBy, GrownPtes, Released, TablesFreed, Backs;
    SameMemory(v1, v2, pd, mid, mid + 1);
    ReleasedInv(v1, v2, v3, pd, mid, mid + 1);
    UndoPtes(v, v1, v2, v3, pd, lo, mid, hi, writable, user);
    UndoOthers(v, v1, v2, v3, pd, mid, mid + 1);
    var end := mid + 1;
    forall f: nat | f < |v.bits| && Backs(v1.mem, pd, mid, end, f) ensures !v.bits[f] && f < |v1.bits| && v1.bits[f]
      && f !in v1.role {
      FreshBacks(v, v1, pd, lo, mid, hi, writable, user, f);
    }
    forall f: nat | f < |v.bits|
      ensures Backs(v3.mem, pd, end, hi, f) <==> Backs(v1.mem, pd, mid, hi, f) && !Backs(v1.mem, pd, mid, end, f)
    {
      UndoBacks(v1, v2, v3, pd, mid, hi, f);
    }
    Sized(v1);
    UndoHeld(v, v1, v2, v3, pd, mid, hi);
    assert |v3.mem| == |v.mem| by { GoneSpaces(v2, v3, pd, mid, mid + 1); }
  }

  /** The body of the loop of va_alloc_region: a frame, then the mapping; a frame that could not
      be mapped goes back. */
  method GrowPage(m: Machine, pd: nat, p: nat, writable: bool, user: bool, ghost v: Vm, ghost lo: nat)
    returns (ok: bool)
    requires m.pmm.Valid() && pd in v.spaces && lo <= p < KERNEL_PAGE && Growth(v, m.V(), pd, lo, lo, p, writable, user)
    requires RowsMade(v, m.V(), pd, MissingRows(v.mem, pd, lo, p), p - lo)
    modifies m`mem, m`role, m.pmm
    ensures m.pmm.Valid() && Growth(v, m.V(), pd, lo, lo, if ok then p + 1 else p, writable, user)
    ensures ok <==> Affords(v, pd, lo, p + 1, 1)
    ensures ok ==> RowsMade(v, m.V(), pd, MissingRows(v.mem, pd, lo, p + 1), p + 1 - lo)
  {
    hide Inv, HeldBy, GrownPtes, Mapped, FirstFree, OthersSame, RowsMade, MissingRows, Affords;
    ghost var v1 := m.V();
    Sized(v1);
    var g := m.AllocFrame();
    if g == 0 {
      TooFew(v, v1, pd, lo, p, p - lo);
      return false;
    }
    ghost var v2 := m.V();
    TakenBase(v1, v2, g);
    RowsTake(v, v1, v2, pd, MissingRows(v.mem, pd, lo, p), p - lo);
    ok := MapFrame(m, pd, p, g, writable, user, v, lo);
    if ok {
      GrowStep(v, v1, v2, m.V(), pd, lo, p / ENTRIES, p % ENTRIES, g, writable, user);
    } else {
      GiveBack(m, g, v1);
      GrowRefused(v, v1, m.V(), pd, lo, p, g, writable, user);
    }
  }

  /** hal_vm_map of one page. */
  method MapFrame(m: Machine, pd: nat, p: nat, g: nat, writable: bool, user: bool, ghost v: Vm, ghost lo: nat)
    returns (ok: bool)
    requires m.pmm.Valid() && Base(m.V()) && pd in m.spaces && lo <= p < KERNEL_PAGE
    requires RowsMade(v, m.V(), pd, MissingRows(v.mem, pd, lo, p), p + 1 - lo)
    modifies m`mem, m`role, m.pmm
    ensures m.pmm.Valid() && (ok <==> Affords(v, pd, lo, p + 1, 1))
    ensures ok ==>
      Mapped(old(m.V()), m.V(), pd, p, p + 1, g, writable, user)
        && RowsMade(v, m.V(), pd, MissingRows(v.mem, pd, lo, p + 1), p + 1 - lo)
    ensures !ok ==> m.V() == old(m.V())
  {
    hide Mapped, FirstFree, RowsMade, MissingRows, Affords, Base;
    ghost var v2 := m.V();
    RowsNext(v, v2, pd, lo, p, p + 1, p + 1 - lo);
    ghost var done;
    ok, done := MapRange(m, pd, g, p, 1, writable, user);
    if ok {
      RowsOfPage(v2.mem, pd, p);
      RowsGrown(v, v2, m.V(), pd, lo, p);
    } else {
      TooFew(v, v2, pd, lo, p, p + 1 - lo);
    }
  }

  lemma RowsTake(v: Vm, v1: Vm, v2: Vm, pd: nat, rows: set<nat>, n: nat)
    requires RowsMade(v, v1, pd, rows, n) && FirstFree(v1.bits) != 0 && FirstFree(v1.bits) < |v1.bits|
    requires v2.mem == v1.mem && v2.bits == v1.bits[FirstFree(v1.bits) := true]
    ensures RowsMade(v, v2, pd, rows, n + 1)
  {
    assert FirstFree(v1.bits) in FreeSet(v1.bits);
    TakeOne(v1.bits);
  }

  lemma RowsOfPage(mem: Memory, pd: nat, p: nat)
    requires p / ENTRIES < ENTRIES
    ensures MissingRows(mem, pd, p, p + 1) == if Pde(mem, pd, p / ENTRIES).present then {} else {p / ENTRIES}
  {
  }

  lemma RowsGrown(v: Vm, v2: Vm, v3: Vm, pd: nat, lo: nat, p: nat)
    requires lo <= p && p / ENTRIES < ENTRIES && RowsMade(v, v2, pd, MissingRows(v.mem, pd, lo, p), p + 1 - lo)
    requires var more := if Pde(v2.mem, pd, p / ENTRIES).present then {} else {p / ENTRIES};
      && RowsMade(v2, v3, pd, more, 0) && MissingRows(v.mem, pd, lo, p + 1) == MissingRows(v.mem, pd, lo, p) + more
    ensures RowsMade(v, v3, pd, MissingRows(v.mem, pd, lo, p + 1), p + 1 - lo) && Affords(v, pd, lo, p + 1, 1)
  {
    hide FreeSet, Pde, MissingRows;
    if !Pde(v2.mem, pd, p / ENTRIES).present {
      RowsMore(v, v2, v3, pd, MissingRows(v.mem, pd, lo, p), p + 1 - lo, p / ENTRIES);
    }
  }

  /** No frame is left, and page `p` needs one. */
  lemma TooFew(v: Vm, v1: Vm, pd: nat, lo: nat, p: nat, n: nat)
    requires RowsMade(v, v1, pd, MissingRows(v.mem, pd, lo, p), n) && FirstFree(v1.bits) == 0 && lo <= p
    requires n == p - lo || (n == p + 1 - lo && |MissingRows(v.mem, pd, lo, p + 1)| > |MissingRows(v.mem, pd, lo, p)|)
    ensures !Affords(v, pd, lo, p + 1, 1)
  {
    hide MissingRows;
    assert FreeSet(v1.bits) == {};
    MissingRowsMono(v.mem, pd, lo, p, p + 1);
  }

  lemma AffordsMono(v: Vm, pd: nat, lo: nat, mid: nat, hi: nat)
    requires lo <= mid <= hi && Affords(v, pd, lo, hi, 1)
    ensures Affords(v, pd, lo, mid, 1)
  {
    MissingRowsMono(v.mem, pd, lo, mid, hi);
  }

  lemma AffordsNone(v: Vm, pd: nat, lo: nat)
    ensures Affords(v, pd, lo, lo, 1)
  {
    assert MissingRows(v.mem, pd, lo, lo) == {};
  }

  /** The frame taken last goes back. */
  method GiveBack(m: Machine, g: nat, ghost v: Vm)
    requires m.pmm.Valid() && 1 <= g < |v.bits| == |v.refs| && !v.bits[g]
    requires m.V() == v.(bits := v.bits[g := true], refs := v.refs[g := 1])
    modifies m.pmm
    ensures m.pmm.Valid() && m.V() == v.(refs := v.refs[g := 0])
  {
    m.pmm.FrameFree(g * PAGE);
    assert m.pmm.bits == v.bits;
  }

  lemma TakenBase(v: Vm, v': Vm, g: nat)
    requires Inv(v) && 1 <= g < |v.bits| == |v.refs| && !v.bits[g]
    requires v' == v.(bits := v.bits[g := true], refs := v.refs[g := 1])
    ensures Base(v')
  {
  }

  /** One page of the rollback loop. */
  method UndoPage(m: Machine, pd: nat, p: nat, ghost v: Vm, ghost lo: nat, ghost hi: nat, ghost writable: bool,
    ghost user: bool)
    requires m.pmm.Valid() && pd in v.spaces && lo <= p < hi <= KERNEL_PAGE
    requires Growth(v, m.V(), pd, lo, p, hi, writable, user)
    modifies m`mem, m`role, m.pmm
    ensures m.pmm.Valid() && Growth(v, m.V(), pd, lo, p + 1, hi, writable, user)
  {
    hide Inv, HeldBy, GrownPtes, Released, Unmapped, Base, OthersSame;
    ghost var v1 := m.V();
    ReleasedNone(v1, pd, p);
    FreePage(m, pd, p, v1, p);
    ghost var v2 := m.V();
    ReleasedBase(v1, v2, pd, p, p + 1);
    UnmapRange(m, pd, p, 1);
    UndoStep(v, v1, v2, m.V(), pd, lo, p, hi, writable, user);
    ReleasedOthers(v1, v2, m.V(), pd, p, p + 1);
  }

  /** va_alloc_region on user pages. It succeeds exactly if there is a frame for each page and one
      for each table lacking; then every page of the range is newly backed. Otherwise it gets as
      far as the frames reach; those pages are unmapped and their frames are free again, so that
      only tables remain allocated. */
  method AllocRegion(m: Machine, pd: nat, first: nat, count: nat, writable: bool, user: bool)
    returns (ok: bool, ghost reached: nat)
    requires m.Ok() && pd in m.spaces && first + count <= KERNEL_PAGE
    modifies m`mem, m`role, m.pmm
    ensures m.Ok() && m.spaces == old(m.spaces) && first <= reached <= first + count
    ensures ok ==> reached == first + count && Growth(old(m.V()), m.V(), pd, first, first, reached, writable, user)
    ensures !ok ==> reached < first + count && Growth(old(m.V()), m.V(), pd, first, reached, reached, writable, user)
    ensures ok <==> Affords(old(m.V()), pd, first, first + count, 1)
    ensures Affords(old(m.V()), pd, first, reached, 1) && (!ok ==> !Affords(old(m.V()), pd, first, reached + 1, 1))
  {
    hide Inv, HeldBy, GrownPtes, OthersSame, RowsMade, MissingRows, Affords;
    ghost var v := m.V();
    GrowthNone(v, pd, first, writable, user);
    RowsNone(v, pd, first);
    AffordsNone(v, pd, first);
    var p, end := first, first + count;
    while p < end
      invariant first <= p <= end && m.pmm.Valid() && Growth(v, m.V(), pd, first, first, p, writable, user)
      invariant RowsMade(v, m.V(), pd, MissingRows(v.mem, pd, first, p), p - first) && Affords(v, pd, first, p, 1)
    {
      ghost var v1 := m.V();
      ok := GrowPage(m, pd, p, writable, user, v, first);
      if !ok {
        NotAll(v, pd, first, p, end);
        var clean := first;
        while clean < p
          invariant first <= clean <= p && m.pmm.Valid() && Growth(v, m.V(), pd, first, clean, p, writable, user)
        {
          v1 := m.V();
          UndoPage(m, pd, clean, v, first, p, writable, user);
          clean := clean + 1;
        }
        return false, p;
      }
      p := p + 1;
    }
    return true, p;
  }

  lemma NotAll(v: Vm, pd: nat, lo: nat, p: nat, end: nat)
    requires lo <= p < end && !Affords(v, pd, lo, p + 1, 1)
    ensures !Affords(v, pd, lo, end, 1)
  {
    hide MissingRows;
    MissingRowsMono(v.mem, pd, lo, p + 1, end);
  }

  /** Row `a` has a table, and its directory entry keeps user programs out. */
  predicate Closed(mem: Memory, pd: nat, a: nat) {
    Pde(mem, pd, a).present && !Pde(mem, pd, a).user
  }

  /** What the spaces see of a growth or of its rollback. */
  lemma GrowthViews(v: Vm, v': Vm, pd: nat, lo: nat, mid: nat, hi: nat, writable: bool, user: bool, q: nat, a: nat,
    b: nat)
    requires Inv(v) && Growth(v, v', pd, lo, mid, hi, writable, user) && hi <= KERNEL_PAGE && q in v.spaces
    requires a < KERNEL_PD && b < ENTRIES
    ensures var page := PageAt(v'.mem, q, a, b);
      if q != pd || !(lo <= a * ENTRIES + b < hi) then page == PageAt(v.mem, q, a, b)
      else if a * ENTRIES + b < mid then page == None
      else
        && page.Some? && page.value.writable == writable && |page.value.content| == ENTRIES
        && page.value.user == (user && !Closed(v.mem, pd, a))
  {
    var w := Pte(v.mem, q, a, b);
    if w.present {
      assert UserMaps(v.mem, q, a, b, w.frame);
      assert w.frame !in v'.role;
    }
  }

  /** User programs may use all pages lo..hi of `pd`. */
  ghost predicate AllUser(mem: Memory, pd: nat, lo: nat, hi: nat) {
    forall a: nat, b: nat :: a < KERNEL_PD && b < ENTRIES && lo <= a * ENTRIES + b < hi ==>
      PageAt(mem, pd, a, b).Some? && PageAt(mem, pd, a, b).value.user
  }

  /** A region asked for user programs can be used by them exactly if no row it touches had a table made
      for the kernel only: the directory entry of a table that is there is left as it is. */
  lemma UserAsAsked(v: Vm, v': Vm, pd: nat, lo: nat, hi: nat, writable: bool)
    requires Inv(v) && Growth(v, v', pd, lo, lo, hi, writable, true) && lo < hi <= KERNEL_PAGE && pd in v.spaces
    ensures AllUser(v'.mem, pd, lo, hi) <==>
      forall a: nat :: lo < (a + 1) * ENTRIES && a * ENTRIES < hi ==> !Closed(v.mem, pd, a)
  {
    hide Inv, Growth, PageAt, Closed;
    forall a: nat, b: nat | a < KERNEL_PD && b < ENTRIES && lo <= a * ENTRIES + b < hi
      ensures PageAt(v'.mem, pd, a, b).Some? && (PageAt(v'.mem, pd, a, b).value.user <==> !Closed(v.mem, pd, a)) {
      GrowthViews(v, v', pd, lo, lo, hi, writable, true, pd, a, b);
    }
    if AllUser(v'.mem, pd, lo, hi) {
      forall a: nat | lo < (a + 1) * ENTRIES && a * ENTRIES < hi ensures !Closed(v.mem, pd, a) {
        var b := if lo <= a * ENTRIES then 0 else lo - a * ENTRIES;
        assert PageAt(v'.mem, pd, a, b).Some?;
      }
    }
  }

  /** A failed call puts every page back exactly when none of the pages it reached, which are those
      the free frames afford, was mapped before: it writes over existing mappings and its rollback
      removes them. */
  lemma RollbackRestores(v: Vm, v': Vm, pd: nat, lo: nat, hi: nat, reached: nat, writable: bool, user: bool)
    requires Inv(v) && Growth(v, v', pd, lo, reached, reached, writable, user) && lo <= reached < hi <= KERNEL_PAGE
    requires pd in v.spaces
    requires Affords(v, pd, lo, reached, 1) && !Affords(v, pd, lo, reached + 1, 1)
    ensures ViewsSame(v.spaces, v.mem, v'.mem) <==> !MapsOver(v, pd, lo, hi)
    ensures forall f :: 0 <= f < |v.bits| ==> (v'.bits[f] <==> v.bits[f] || f in v'.role)
  {
    hide Affords;
    assert ViewsSame(v.spaces, v.mem, v'.mem) <==>
      NoneMapped(v, pd, lo, reached) by { RollbackViews(v, v', pd, lo, reached, writable, user); }
    forall p: nat | lo <= p < hi ensures Reaches(v, pd, lo, p) <==> p < reached {
      if p < reached { AffordsMono(v, pd, lo, p + 1, reached); }
      if p >= reached && Reaches(v, pd, lo, p) { AffordsMono(v, pd, lo, reached + 1, p + 1); }
    }
    ReachedPages(v, pd, lo, hi, reached);
  }

  /** There are frames for all pages from `lo` to `p`, and their tables. */
  ghost predicate Reaches(v: Vm, pd: nat, lo: nat, p: nat) {
    Affords(v, pd, lo, p + 1, 1)
  }

  /** A page of the range is mapped, and there are frames for all pages up to it. */
  ghost predicate MapsOver(v: Vm, pd: nat, lo: nat, hi: nat) {
    exists a: nat, b: nat :: a < KERNEL_PD && b < ENTRIES && lo <= a * ENTRIES + b < hi && Pte(v.mem, pd, a, b).present
      && Reaches(v, pd, lo, a * ENTRIES + b)
  }

  ghost predicate NoneMapped(v: Vm, pd: nat, lo: nat, hi: nat) {
    forall a: nat, b: nat :: a < KERNEL_PD && b < ENTRIES && lo <= a * ENTRIES + b < hi ==>
      !Pte(v.mem, pd, a, b).present
  }

  lemma ReachedPages(v: Vm, pd: nat, lo: nat, hi: nat, reached: nat)
    requires lo <= reached < hi && forall p: nat :: lo <= p < hi ==> (Reaches(v, pd, lo, p) <==> p < reached)
    ensures NoneMapped(v, pd, lo, reached) <==> !MapsOver(v, pd, lo, hi)
  {
    hide Reaches;
    if !MapsOver(v, pd, lo, hi) {
      forall a: nat, b: nat | a < KERNEL_PD && b < ENTRIES && lo <= a * ENTRIES + b < reached
        ensures !Pte(v.mem, pd, a, b).present {
        assert Reaches(v, pd, lo, a * ENTRIES + b);
      }
    }
  }

  /** For a caller: if no page of the range is mapped, a failed call changes nothing anyone sees. */
  lemma RollbackClean(v: Vm, v': Vm, pd: nat, lo: nat, hi: nat, reached: nat, writable: bool, user: bool)
    requires Inv(v) && Growth(v, v', pd, lo, reached, reached, writable, user) && lo <= reached <= hi <= KERNEL_PAGE
    requires pd in v.spaces
    requires NoneMapped(v, pd, lo, hi)
    ensures ViewsSame(v.spaces, v.mem, v'.mem)
  {
    hide Inv, Growth, ViewsSame, Pte;
    assert NoneMapped(v, pd, lo, reached);
    RollbackViews(v, v', pd, lo, reached, writable, user);
  }

  lemma RollbackViews(v: Vm, v': Vm, pd: nat, lo: nat, reached: nat, writable: bool, user: bool)
    requires Inv(v) && Growth(v, v', pd, lo, reached, reached, writable, user) && reached <= KERNEL_PAGE
    requires pd in v.spaces
    ensures ViewsSame(v.spaces, v.mem, v'.mem) <==> NoneMapped(v, pd, lo, reached)
  {
    forall q, a: nat, b: nat | q in v.spaces && a < KERNEL_PD && b < ENTRIES
      ensures PageAt(v'.mem, q, a, b) == if q != pd || !(lo <= a * ENTRIES + b < reached) then PageAt(v.mem, q, a, b)
        else None
      ensures PageAt(v.mem, q, a, b) == None <==> !Pte(v.mem, q, a, b).present
    {
      GrowthViews(v, v', pd, lo, reached, reached, writable, user, q, a, b);
      assert Pte(v.mem, q, a, b).present ==> UserMaps(v.mem, q, a, b, Pte(v.mem, q, a, b).frame);
    }
  }

  /** A region with a mapped page does not fail as documented: with frames for all its pages the call
      succeeds and the page is backed by another frame. */
  lemma MappedOver(v: Vm, v': Vm, pd: nat, lo: nat, hi: nat, writable: bool, user: bool, a: nat, b: nat)
    requires Inv(v) && Growth(v, v', pd, lo, lo, hi, writable, user) && hi <= KERNEL_PAGE && pd in v.spaces
    requires a < KERNEL_PD && b < ENTRIES && lo <= a * ENTRIES + b < hi && Pte(v.mem, pd, a, b).present
    ensures Pte(v'.mem, pd, a, b).present && Pte(v'.mem, pd, a, b).frame != Pte(v.mem, pd, a, b).frame
  {
    hide KernelHalf, Tabled, Exclusive, Counted, HeldBy;
    assert UserMaps(v.mem, pd, a, b, Pte(v.mem, pd, a, b).frame);
    assert Touches(pd, a, b, pd, lo, hi);
  }
}
