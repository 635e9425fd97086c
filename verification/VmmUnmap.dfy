/** Unmapping ranges, with the tables that become empty given back. */
module VmmUnmap {
  import opened PteBits
  import opened PageTables
  import opened Pmm
  import opened Bitmap
  import opened Vmm
  import opened VmmMap

  /** The allocator and the memory changed only by user tables of `pd` that lay wholly in pages
      lo..hi and were released. */
  ghost predicate TablesFreed(v: Vm, v': Vm, pd: nat, lo: nat, hi: nat) {
    && |v'.mem| == |v'.bits| == |v'.refs| == |v.mem| == |v.bits| == |v.refs|
    && (forall f :: f in v'.role ==> f in v.role && v'.role[f] == v.role[f])
    && (forall f :: f in v.role && f !in v'.role ==>
          && v.role[f].Table? && v.role[f].pd == pd && v.role[f].i < KERNEL_PD
          && lo <= v.role[f].i * ENTRIES && (v.role[f].i + 1) * ENTRIES <= hi)
    && (forall f :: 0 <= f < |v.bits| ==>
          if f in v.role && f !in v'.role && v.refs[f] > 0
          then v'.refs[f] == v.refs[f] - 1 && v'.bits[f] == (v.refs[f] > 1)
          else v'.bits[f] == v.bits[f] && v'.refs[f] == v.refs[f])
    && (forall f :: 0 <= f < |v.mem| && f !in v.role ==> v'.mem[f] == v.mem[f])
  }

  /** All pages of user row `a` are among lo..hi. */
  predicate Whole(a: nat, lo: nat, hi: nat) {
    a < KERNEL_PD && lo <= a * ENTRIES && (a + 1) * ENTRIES <= hi
  }

  /** Pages lo..hi of space `pd` are no longer mapped; every other translation of every space is
      as before. */
  ghost predicate Unmapped(v: Vm, v': Vm, pd: nat, lo: nat, hi: nat) {
    && Base(v') && v'.spaces == v.spaces && v'.kernel == v.kernel && TablesFreed(v, v', pd, lo, hi)
    && (KernelHalf(v) ==> KernelHalf(v'))
    && (forall q, a: nat :: q in v.spaces && a < ENTRIES && q != pd ==> Pde(v'.mem, q, a) == Pde(v.mem, q, a))
    && (forall a: nat :: a < ENTRIES ==>
          Pde(v'.mem, pd, a) == Pde(v.mem, pd, a) || (Pde(v'.mem, pd, a) == ZERO && Whole(a, lo, hi)))
    && (forall q, a: nat, b: nat :: q in v.spaces && a < ENTRIES && b < ENTRIES ==>
          if Touches(q, a, b, pd, lo, hi) then Cleared(Pte(v.mem, q, a, b), Pte(v'.mem, q, a, b))
          else Pte(v'.mem, q, a, b) == Pte(v.mem, q, a, b))
  }

  /** Row `a` of `pd` has no table any more, and the frame of the one it had holds none. */
  ghost predicate RowGone(v: Vm, v': Vm, pd: nat, a: nat) {
    Pde(v.mem, pd, a).present ==> Pde(v'.mem, pd, a) == ZERO && Pde(v.mem, pd, a).frame !in v'.role
  }

  /** The tables of all user rows that lie wholly in pages lo..hi are given back. */
  ghost predicate RowsGone(v: Vm, v': Vm, pd: nat, lo: nat, hi: nat) {
    forall a: nat :: Whole(a, lo, hi) ==> RowGone(v, v', pd, a)
  }

  /** At most row `i` of `pd` has lost its table. */
  ghost predicate RowsKept(v: Vm, v': Vm, pd: nat, i: nat) {
    && v'.role.Keys <= v.role.Keys
    && forall a: nat :: a < ENTRIES && a != i ==> Pde(v'.mem, pd, a) == Pde(v.mem, pd, a)
  }

  lemma RowsGoneNext(v: Vm, v1: Vm, v2: Vm, pd: nat, lo: nat, i: nat, j: nat, count: nat)
    requires RowsGone(v, v1, pd, lo, i * ENTRIES + j) && RowsKept(v1, v2, pd, i) && j < ENTRIES && j + count <= ENTRIES
    requires j == 0 && count == ENTRIES && i < KERNEL_PD ==> RowGone(v, v2, pd, i)
    requires j == 0 || lo == i * ENTRIES + j
    ensures RowsGone(v, v2, pd, lo, i * ENTRIES + j + count)
  {
    forall a: nat | Whole(a, lo, i * ENTRIES + j + count) ensures RowGone(v, v2, pd, a) {
      if a < i { assert Whole(a, lo, i * ENTRIES + j); }
    }
  }

  /** An entry that was cleared, or was not present and left alone. */
  predicate Cleared(w: Word, w': Word) {
    w' == ZERO || (w' == w && !w.present)
  }

  lemma UnmappedNone(v: Vm, pd: nat, lo: nat)
    requires Base(v)
    ensures Unmapped(v, v, pd, lo, lo)
  {
  }

  lemma FreedTaken(v: Vm, v1: Vm, v2: Vm, pd: nat, lo: nat, hi: nat, hi': nat)
    requires TablesFreed(v, v1, pd, lo, hi) && TablesTaken(v1, v2) && v2.role == v1.role && hi <= hi'
    ensures TablesFreed(v, v2, pd, lo, hi')
  {
  }

  /** One entry is cleared. */
  lemma UnmappedNext(v: Vm, v1: Vm, pd: nat, lo: nat, i: nat, j: nat)
    requires i < ENTRIES && j < ENTRIES && lo <= i * ENTRIES + j
    requires Unmapped(v, v1, pd, lo, i * ENTRIES + j) && pd in v.spaces && Pde(v1.mem, pd, i).present
    ensures Pde(v1.mem, pd, i).frame < |v1.mem|
    ensures var v' := v1.(mem := SetCell(v1.mem, Pde(v1.mem, pd, i).frame, j, ZERO));
      Unmapped(v, v', pd, lo, i * ENTRIES + j + 1) && PdesSame(v1.mem, v'.mem, pd)
  {
    hide Base, TablesFreed, TablesTaken, KernelHalf;
    BaseSetPte(v1, pd, i, j, ZERO);
    FreedTaken(v, v1, v1.(mem := SetCell(v1.mem, Pde(v1.mem, pd, i).frame, j, ZERO)), pd, lo, i * ENTRIES + j,
      i * ENTRIES + j + 1);
  }

  /** One entry was not present. */
  lemma UnmappedSkip(v: Vm, v1: Vm, pd: nat, lo: nat, i: nat, j: nat)
    requires i < ENTRIES && j < ENTRIES && lo <= i * ENTRIES + j
    requires Unmapped(v, v1, pd, lo, i * ENTRIES + j) && pd in v.spaces && !Pte(v1.mem, pd, i, j).present
    ensures Unmapped(v, v1, pd, lo, i * ENTRIES + j + 1)
  {
    hide Base, TablesFreed, KernelHalf;
    assert TablesTaken(v1, v1) by { TakenRefl(v, v1, pd, lo, i * ENTRIES + j); }
    FreedTaken(v, v1, v1, pd, lo, i * ENTRIES + j, i * ENTRIES + j + 1);
    forall q | q in v.spaces && (q == pd || i >= KERNEL_PD) ensures !Pte(v1.mem, q, i, j).present {
      SameKernelEntry(v1, pd, q, i, j);
    }
  }

  lemma TakenRefl(v: Vm, v1: Vm, pd: nat, lo: nat, hi: nat)
    requires TablesFreed(v, v1, pd, lo, hi)
    ensures TablesTaken(v1, v1)
  {
  }

  lemma SameKernelEntry(v: Vm, pd: nat, q: nat, i: nat, j: nat)
    requires Base(v) && pd in v.spaces && q in v.spaces && i < ENTRIES && (q == pd || i >= KERNEL_PD)
    ensures Pte(v.mem, q, i, j) == Pte(v.mem, pd, i, j)
  {
    if q != pd {
      assert Pde(v.mem, q, i) == Pde(v.mem, pd, i);
    }
  }

  /** A row without a table needs no work. */
  lemma UnmappedRow(v: Vm, v1: Vm, pd: nat, lo: nat, i: nat, j: nat, count: nat)
    requires i < ENTRIES && j + count <= ENTRIES && lo <= i * ENTRIES + j
    requires Unmapped(v, v1, pd, lo, i * ENTRIES + j) && pd in v.spaces && !Pde(v1.mem, pd, i).present
    ensures Unmapped(v, v1, pd, lo, i * ENTRIES + j + count)
  {
    hide Base, TablesFreed, KernelHalf;
    assert TablesTaken(v1, v1) by { TakenRefl(v, v1, pd, lo, i * ENTRIES + j); }
    FreedTaken(v, v1, v1, pd, lo, i * ENTRIES + j, i * ENTRIES + j + count);
    forall q, b: nat | q in v.spaces && (q == pd || i >= KERNEL_PD) ensures !Pte(v1.mem, q, i, b).present {
      SameKernelEntry(v1, pd, q, i, b);
    }
  }

  /** The effect of giving a table back. */
  ghost function WithoutTable(v: Vm, pd: nat, i: nat, t: nat): Vm
    requires |v.mem| == |v.bits| == |v.refs| && t < |v.mem| && pd < |v.mem| && i < |v.mem[pd]|
  {
    v.(mem := SetCell(v.mem, pd, i, ZERO), role := v.role - {t},
       refs := if v.bits[t] && v.refs[t] > 0 then v.refs[t := v.refs[t] - 1] else v.refs,
       bits := if v.bits[t] && v.refs[t] <= 1 then v.bits[t := false] else v.bits)
  }

  lemma WithoutTableSame(v: Vm, pd: nat, i: nat, t: nat)
    requires Base(v) && pd in v.spaces && i < KERNEL_PD && Pde(v.mem, pd, i).present && t == Pde(v.mem, pd, i).frame
    ensures pd < |v.mem| && t < |v.mem| && pd != t && t in v.role && v.role[t] == Table(pd, i) && v.bits[t]
    ensures v.refs[t] > 0
    ensures |v.mem[pd]| == ENTRIES
    ensures var v' := WithoutTable(v, pd, i, t);
      && (forall q, a: nat :: q in v.spaces && a < ENTRIES ==>
            Pde(v'.mem, q, a) == if q == pd && a == i then ZERO else Pde(v.mem, q, a))
      && (forall q, a: nat, b: nat :: q in v.spaces && a < ENTRIES ==>
            Pte(v'.mem, q, a, b) == if q == pd && a == i then ZERO else Pte(v.mem, q, a, b))
  {
    assert pd in v.role && t in v.role && v.role[t] == Table(pd, i);
    var v' := WithoutTable(v, pd, i, t);
    forall q, a: nat, b: nat | q in v.spaces && a < ENTRIES
      ensures Pte(v'.mem, q, a, b) == if q == pd && a == i then ZERO else Pte(v.mem, q, a, b)
    {
      if Pde(v.mem, q, a).present { assert v.role[Pde(v.mem, q, a).frame] != Directory; }
    }
  }

  lemma WithoutTableBase(v: Vm, pd: nat, i: nat, t: nat)
    requires Base(v) && pd in v.spaces && i < KERNEL_PD && Pde(v.mem, pd, i).present && t == Pde(v.mem, pd, i).frame
    requires pd < |v.mem| && t < |v.mem| && |v.mem[pd]| == ENTRIES
    ensures Base(WithoutTable(v, pd, i, t)) && (KernelHalf(v) ==> KernelHalf(WithoutTable(v, pd, i, t)))
  {
    WithoutTableSame(v, pd, i, t);
    var v' := WithoutTable(v, pd, i, t);
    forall q, a: nat | q in v.spaces && a < ENTRIES && Pde(v'.mem, q, a).present
      ensures var u := Pde(v'.mem, q, a).frame;
        Pde(v'.mem, q, a).writable && u in v'.role && v'.role[u] == if a < KERNEL_PD then Table(q, a)
          else KernelTable(a)
    {
      assert Pde(v.mem, q, a) == Pde(v'.mem, q, a);
    }
  }

  lemma WithoutTableFreed(v: Vm, v1: Vm, pd: nat, lo: nat, i: nat, t: nat)
    requires TablesFreed(v, v1, pd, lo, (i + 1) * ENTRIES) && Base(v) && lo <= i * ENTRIES && i < KERNEL_PD
    requires t < |v1.mem| && pd < |v1.mem| && i < |v1.mem[pd]| && pd in v.spaces
    requires t in v1.role && v1.role[t] == Table(pd, i) && v1.bits[t] && v1.refs[t] > 0
    ensures TablesFreed(v, WithoutTable(v1, pd, i, t), pd, lo, (i + 1) * ENTRIES)
  {
    assert pd in v.role;
  }

  /** A whole row was cleared, then its table given back. */
  lemma UnmappedTable(v: Vm, v1: Vm, pd: nat, lo: nat, i: nat)
    requires i < KERNEL_PD && lo <= i * ENTRIES && Base(v)
    requires Unmapped(v, v1, pd, lo, (i + 1) * ENTRIES) && pd in v.spaces && Pde(v1.mem, pd, i).present
    ensures var t := Pde(v1.mem, pd, i).frame;
      && t < |v1.mem| == |v1.bits| == |v1.refs| && pd < |v1.mem| && |v1.mem[pd]| == ENTRIES && t != 0
      && Unmapped(v, WithoutTable(v1, pd, i, t), pd, lo, (i + 1) * ENTRIES)
  {
    hide TablesFreed, Base, KernelHalf;
    var t := Pde(v1.mem, pd, i).frame;
    TableBounds(v1, t);
    WithoutTableSame(v1, pd, i, t);
    WithoutTableBase(v1, pd, i, t);
    WithoutTableFreed(v, v1, pd, lo, i, t);
  }

  lemma TableBounds(v: Vm, t: nat)
    requires Base(v)
    ensures |v.mem| == |v.bits| == |v.refs| && (t in v.role ==> t != 0)
  {
  }

  /** One entry of clear_page_table_entries. */
  method ClearEntry(m: Machine, pd: nat, i: nat, j: nat, t: nat, ghost v: Vm, ghost lo: nat)
    requires i < ENTRIES && j < ENTRIES && lo <= i * ENTRIES + j && pd in v.spaces
    requires Unmapped(v, m.V(), pd, lo, i * ENTRIES + j) && Pde(m.mem, pd, i).present && t == Pde(m.mem, pd, i).frame
    modifies m`mem
    ensures Unmapped(v, m.V(), pd, lo, i * ENTRIES + j + 1) && PdesSame(old(m.mem), m.mem, pd)
  {
    if Cell(m.mem, t, j).present {
      UnmappedNext(v, m.V(), pd, lo, i, j);
      m.mem := SetCell(m.mem, t, j, ZERO);
    } else {
      UnmappedSkip(v, m.V(), pd, lo, i, j);
    }
  }

  /** The end of unmap_page_table_range, for a row cleared as a whole. */
  method GiveBackTable(m: Machine, pd: nat, i: nat, t: nat, ghost v: Vm, ghost lo: nat)
    requires m.pmm.Valid() && i < KERNEL_PD && lo <= i * ENTRIES && pd in v.spaces && Base(v)
    requires Unmapped(v, m.V(), pd, lo, (i + 1) * ENTRIES) && Pde(m.mem, pd, i).present && t == Pde(m.mem, pd, i).frame
    modifies m`mem, m`role, m.pmm
    ensures m.pmm.Valid() && Unmapped(v, m.V(), pd, lo, (i + 1) * ENTRIES)
    ensures RowsKept(old(m.V()), m.V(), pd, i) && Pde(m.mem, pd, i) == ZERO && t !in m.role
  {
    hide Unmapped, Base;
    ghost var v1 := m.V();
    UnmappedTable(v, v1, pd, lo, i);
    m.pmm.FrameFree(t * PAGE);
    m.mem := SetCell(m.mem, pd, i, ZERO);
    m.role := m.role - {t};
    assert m.V() == WithoutTable(v1, pd, i, t);
  }

  lemma RowSoFar(v: Vm, v1: Vm, pd: nat, lo: nat, i: nat, j: nat)
    requires Unmapped(v, v1, pd, lo, i * ENTRIES + j) && i < ENTRIES && j < ENTRIES
    ensures Pde(v1.mem, pd, i) == Pde(v.mem, pd, i)
  {
    hide Base, TablesFreed, KernelHalf;
  }

  /** unmap_page_table_range. A kernel table is never cleared as a whole. */
  method UnmapChunk(m: Machine, pd: nat, i: nat, j: nat, count: nat, ghost v: Vm, ghost lo: nat)
    requires m.pmm.Valid() && i < ENTRIES && j < ENTRIES && j + count <= ENTRIES && lo <= i * ENTRIES + j
    requires pd in v.spaces && Base(v)
    requires j == 0 && count == ENTRIES ==> i < KERNEL_PD
    requires Unmapped(v, m.V(), pd, lo, i * ENTRIES + j)
    modifies m`mem, m`role, m.pmm
    ensures m.pmm.Valid() && Unmapped(v, m.V(), pd, lo, i * ENTRIES + j + count)
    ensures RowsKept(old(m.V()), m.V(), pd, i) && (j == 0 && count == ENTRIES ==> RowGone(v, m.V(), pd, i))
  {
    hide Unmapped, Base;
    var d := Cell(m.mem, pd, i);
    RowSoFar(v, m.V(), pd, lo, i, j);
    if !d.present {
      UnmappedRow(v, m.V(), pd, lo, i, j, count);
      return;
    }
    var k := 0;
    while k < count
      invariant 0 <= k <= count && m.pmm.Valid() && PdesSame(old(m.mem), m.mem, pd) && m.role == old(m.role)
      invariant Unmapped(v, m.V(), pd, lo, i * ENTRIES + j + k)
    {
      ClearEntry(m, pd, i, j + k, d.frame, v, lo);
      k := k + 1;
    }
    if j == 0 && count == ENTRIES {
      GiveBackTable(m, pd, i, d.frame, v, lo);
    }
  }

  /** No kernel table lies wholly in the range, at a place where the loop would cut it out. */
  predicate KeepsKernelTables(first: nat, count: nat) {
    forall i: nat :: KERNEL_PD <= i < ENTRIES ==> !(first <= i * ENTRIES && (i + 1) * ENTRIES <= RangeEnd(first, count))
  }

  /** hal_vm_unmap_range. */
  method UnmapRange(m: Machine, pd: nat, first: nat, count: nat)
    requires m.pmm.Valid() && Base(m.V()) && pd in m.spaces && first < PAGES && count <= PAGES
    requires KeepsKernelTables(first, count)
    modifies m`mem, m`role, m.pmm
    ensures m.pmm.Valid()
    ensures Unmapped(old(m.V()), m.V(), pd, first, if first + count < PAGES then first + count else first)
    ensures first + count < PAGES ==> RowsGone(old(m.V()), m.V(), pd, first, first + count)
    ensures first + count >= PAGES ==> m.V() == old(m.V())
  {
    hide Unmapped, Base, RowGone, RowsKept;
    ghost var v := m.V();
    UnmappedNone(v, pd, first);
    if count == 0 { return; }
    var cur, end := first, RangeEnd(first, count);
    while cur < end
      invariant first <= cur && (cur <= end || cur == first) && end == RangeEnd(first, count)
      invariant m.pmm.Valid() && Unmapped(v, m.V(), pd, first, cur)
      invariant first + count >= PAGES ==> m.V() == v
      invariant RowsGone(v, m.V(), pd, first, cur) && (cur == first || cur % ENTRIES == 0 || cur == end)
    {
      ghost var v1 := m.V();
      var i, j := cur / ENTRIES, cur % ENTRIES;
      var n := if ENTRIES - j < end - cur then ENTRIES - j else end - cur;
      assert j == 0 && n == ENTRIES ==> first <= i * ENTRIES && (i + 1) * ENTRIES <= end;
      UnmapChunk(m, pd, i, j, n, v, first);
      RowsGoneNext(v, v1, m.V(), pd, first, i, j, n);
      cur := cur + n;
    }
  }

  /** Byte by byte: nothing in the range is mapped, everything else is untouched. */
  lemma UnmappedBytes(v: Vm, v': Vm, pd: nat, lo: nat, hi: nat, q: nat, va: nat)
    requires Unmapped(v, v', pd, lo, hi) && q in v.spaces && va < PAGES * PAGE
    ensures VirtToPhys(v'.mem, q, va) ==
      if lo * PAGE <= va < hi * PAGE && (q == pd || va >= KERNEL_BASE) then 0 else VirtToPhys(v.mem, q, va)
  {
    var a, b := PdIndex(va), PtIndex(va);
    assert a * ENTRIES + b == va / PAGE;
    assert Touches(q, a, b, pd, lo, hi) <==> lo * PAGE <= va < hi * PAGE && (q == pd || va >= KERNEL_BASE);
  }
}
