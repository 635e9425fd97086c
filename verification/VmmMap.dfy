/** Mapping and unmapping ranges. Addresses and sizes are page aligned there, so a range is
    given by page numbers; page (i, j) has number i * 1024 + j. */
module VmmMap {
  import opened Common
  import opened PteBits
  import opened PageTables
  import opened Pmm
  import opened Bitmap
  import opened Vmm

  const PAGES := 0x10_0000
  const KERNEL_PAGE := 0xC_0000

  /** What the walks need: well-formed tables, and shared kernel tables once there is more than
      the kernel's own space. */
  ghost predicate Base(v: Vm) {
    Shape(v) && Tabled(v) && (KernelHalf(v) || v.spaces == {v.kernel})
  }

  /** Page (a, b) of space `q` belongs to the pages lo..hi of space `pd`; kernel pages belong
      to all spaces. */
  predicate Touches(q: nat, a: nat, b: nat, pd: nat, lo: nat, hi: nat) {
    lo <= a * ENTRIES + b < hi && (q == pd || a >= KERNEL_PD)
  }

  /** A page table entry as fill_page_table_entries writes it. */
  function Leaf(frame: nat, writable: bool, user: bool): Word {
    Word(frame, true, writable, user, false, 0)
  }

  /** A directory entry after a mapping: one that was there stays; a new one allows writing, and user
      programs only if the mapping is for them. */
  predicate Entered(d: Word, d': Word, user: bool) {
    if d.present then d' == d else d'.present ==> d' == Leaf(d'.frame, true, user)
  }

  /** The allocator and the memory changed only by frames that became tables. */
  ghost predicate TablesTaken(v: Vm, v': Vm) {
    && |v'.mem| == |v'.bits| == |v'.refs| == |v.mem| == |v.bits| == |v.refs|
    && (forall f :: f in v.role ==> f in v'.role && v'.role[f] == v.role[f])
    && (forall f :: 0 <= f < |v.bits| ==>
          if f in v'.role && f !in v.role then !v.bits[f] && v'.bits[f] && v'.refs[f] == 1
          else v'.bits[f] == v.bits[f] && v'.refs[f] == v.refs[f])
    && (forall f :: 0 <= f < |v.mem| && f !in v'.role ==> v'.mem[f] == v.mem[f])
  }

  /** Pages lo..hi of space `pd` now translate to consecutive frames from `frame`; every other
      translation of every space is as before. */
  ghost predicate Mapped(v: Vm, v': Vm, pd: nat, lo: nat, hi: nat, frame: nat, writable: bool, user: bool) {
    && Base(v') && v'.spaces == v.spaces && v'.kernel == v.kernel && TablesTaken(v, v')
    && (KernelHalf(v) ==> KernelHalf(v'))
    && (forall q, a: nat :: q in v.spaces && a < ENTRIES && (q != pd || (a + 1) * ENTRIES <= lo) ==>
      Pde(v'.mem, q, a) == Pde(v.mem, q, a))
    && (forall a: nat :: a < ENTRIES ==> Entered(Pde(v.mem, pd, a), Pde(v'.mem, pd, a), user))
    && (forall q, a: nat, b: nat :: q in v.spaces && a < ENTRIES && b < ENTRIES ==>
          Pte(v'.mem, q, a, b) ==
            if Touches(q, a, b, pd, lo, hi) then Leaf(frame + (a * ENTRIES + b - lo), writable, user)
              else Pte(v.mem, q, a, b))
  }

  /** Writing one entry of any table: a kernel entry changes for all spaces. */
  lemma BaseSetPte(v: Vm, pd: nat, i: nat, j: nat, w: Word)
    requires Base(v) && pd in v.spaces && i < ENTRIES && j < ENTRIES && Pde(v.mem, pd, i).present
    ensures Pde(v.mem, pd, i).frame < |v.mem| && |v.mem[Pde(v.mem, pd, i).frame]| == ENTRIES
    ensures var v' := v.(mem := SetCell(v.mem, Pde(v.mem, pd, i).frame, j, w));
      && Base(v') && TablesTaken(v, v') && (KernelHalf(v) ==> KernelHalf(v'))
      && (forall q, a: nat :: q in v.spaces && a < ENTRIES ==> Pde(v'.mem, q, a) == Pde(v.mem, q, a))
      && (forall q, a: nat, b: nat :: q in v.spaces && a < ENTRIES ==>
            Pte(v'.mem, q, a, b) == if a == i && b == j && (q == pd || i >= KERNEL_PD) then w else Pte(v.mem, q, a, b))
  {
    var t := Pde(v.mem, pd, i).frame;
    assert t in v.role;
    var mem' := SetCell(v.mem, t, j, w);
    forall q, a: nat | q in v.spaces && a < ENTRIES ensures Pde(mem', q, a) == Pde(v.mem, q, a) {
      assert v.role[q] == Directory;
    }
    forall q, a: nat, b: nat | q in v.spaces && a < ENTRIES
      ensures Pte(mem', q, a, b) == if a == i && b == j && (q == pd || i >= KERNEL_PD) then w else Pte(v.mem, q, a, b)
    {
      if Pde(v.mem, q, a).present {
        var u := Pde(v.mem, q, a).frame;
        assert u in v.role && v.role[u] == if a < KERNEL_PD then Table(q, a) else KernelTable(a);
        assert a == i && a >= KERNEL_PD ==> u == t;
      }
    }
  }

  /** An empty table in frame `g` for row `i` of `pd`. */
  ghost function WithTable(v: Vm, pd: nat, i: nat, g: nat, user: bool): Vm
    requires |v.mem| == |v.bits| == |v.refs| && (forall f :: 0 <= f < |v.mem| ==> |v.mem[f]| == ENTRIES)
    requires pd < |v.mem| && i < ENTRIES && g < |v.mem|
  {
    v.(mem := SetCell(v.mem[g := seq(ENTRIES, _ => ZERO)], pd, i, Leaf(g, true, user)),
       bits := v.bits[g := true], refs := v.refs[g := 1],
       role := v.role[g := if i < KERNEL_PD then Table(pd, i) else KernelTable(i)])
  }

  lemma WithTableSame(v: Vm, pd: nat, i: nat, g: nat, user: bool)
    requires Base(v) && pd in v.spaces && i < ENTRIES && !Pde(v.mem, pd, i).present
    requires 1 <= g < |v.mem| && !v.bits[g]
    ensures pd < |v.mem| && g !in v.role
    ensures var v' := WithTable(v, pd, i, g, user);
      && (forall q, a: nat :: q in v.spaces && a < ENTRIES ==>
            Pde(v'.mem, q, a) == if q == pd && a == i then Leaf(g, true, user) else Pde(v.mem, q, a))
      && (forall q, a: nat, b: nat :: q in v.spaces && a < ENTRIES && b < ENTRIES ==>
        Pte(v'.mem, q, a, b) == Pte(v.mem, q, a, b))
  {
    assert pd in v.role && g !in v.role;
    var mem1 := v.mem[g := seq(ENTRIES, _ => ZERO)];
    SetData(v, g, seq(ENTRIES, _ => ZERO));
    var v' := WithTable(v, pd, i, g, user);
    forall q, a: nat | q in v.spaces && a < ENTRIES
      ensures Pde(v'.mem, q, a) == if q == pd && a == i then Leaf(g, true, user) else Pde(v.mem, q, a)
    {
      assert Pde(mem1, q, a) == Pde(v.mem, q, a);
    }
    forall q, a: nat, b: nat | q in v.spaces && a < ENTRIES && b < ENTRIES
      ensures Pte(v'.mem, q, a, b) == Pte(v.mem, q, a, b) {
      if Pde(v.mem, q, a).present {
        assert v.role[Pde(v.mem, q, a).frame] != Directory;
      }
    }
  }

  lemma WithTableBase(v: Vm, pd: nat, i: nat, g: nat, user: bool)
    requires Base(v) && pd in v.spaces && i < ENTRIES && !Pde(v.mem, pd, i).present
    requires 1 <= g < |v.mem| && !v.bits[g] && pd < |v.mem|
    ensures var v' := WithTable(v, pd, i, g, user);
      Base(v') && TablesTaken(v, v') && (KernelHalf(v) ==> KernelHalf(v'))
  {
    WithTableSame(v, pd, i, g, user);
    var v' := WithTable(v, pd, i, g, user);
    assert pd in v.role;
    assert v.spaces != {v.kernel} ==> i < KERNEL_PD;
  }

  /** The rows of `pd` that pages lo..hi need and that have no table. */
  ghost function MissingRows(mem: Memory, pd: nat, lo: nat, hi: nat): set<nat> {
    set a: nat | a < ENTRIES && lo < hi && lo < (a + 1) * ENTRIES && a * ENTRIES < hi && !Pde(mem, pd, a).present
  }

  /** Exactly the rows in `rows` of `pd` got a table, and exactly these tables and `n` frames more
      were taken. */
  ghost predicate RowsMade(v: Vm, v': Vm, pd: nat, rows: set<nat>, n: nat) {
    && |FreeSet(v'.bits)| + |rows| + n == |FreeSet(v.bits)|
    && forall a: nat :: a < ENTRIES ==> (Pde(v'.mem, pd, a).present <==> Pde(v.mem, pd, a).present || a in rows)
  }

  /** Free frames enough for pages lo..hi with `each` frames for a page, beside the tables. */
  ghost predicate Affords(v: Vm, pd: nat, lo: nat, hi: nat, each: nat) {
    |FreeSet(v.bits)| >= |MissingRows(v.mem, pd, lo, hi)| + if lo < hi then each * (hi - lo) else 0
  }

  lemma RowsSame(v: Vm, v1: Vm, v2: Vm, pd: nat, rows: set<nat>, n: nat)
    requires RowsMade(v, v1, pd, rows, n) && v2.bits == v1.bits && PdesSame(v1.mem, v2.mem, pd)
    ensures RowsMade(v, v2, pd, rows, n)
  {
    hide FreeSet, Pde;
  }

  /** Pages up to `hi`, all in the row of page `p`, need at most this row in addition. */
  lemma RowsNext(v: Vm, v1: Vm, pd: nat, lo: nat, p: nat, hi: nat, n: nat)
    requires RowsMade(v, v1, pd, MissingRows(v.mem, pd, lo, p), n)
    requires lo <= p < hi <= (p / ENTRIES + 1) * ENTRIES <= ENTRIES * ENTRIES
    ensures var more := if Pde(v1.mem, pd, p / ENTRIES).present then {} else {p / ENTRIES};
      && MissingRows(v.mem, pd, lo, hi) == MissingRows(v.mem, pd, lo, p) + more
      && |MissingRows(v.mem, pd, lo, hi)| == |MissingRows(v.mem, pd, lo, p)| + |more|
  {
    hide Pde, FreeSet;
    var i := p / ENTRIES;
    var old_, all := MissingRows(v.mem, pd, lo, p), MissingRows(v.mem, pd, lo, hi);
    forall a: nat ensures a in all <==> a in old_ || (a == i && !Pde(v.mem, pd, i).present) { }
    if Pde(v1.mem, pd, i).present {
      assert all == old_;
    } else {
      assert all == old_ + {i};
    }
  }

  lemma RowsMore(v: Vm, v1: Vm, v2: Vm, pd: nat, rows: set<nat>, n: nat, i: nat)
    requires RowsMade(v, v1, pd, rows, n) && RowsMade(v1, v2, pd, {i}, 0) && i !in rows
    ensures RowsMade(v, v2, pd, rows + {i}, n)
  {
    hide Pde, FreeSet;
    assert |rows + {i}| == |rows| + 1;
  }

  lemma RowsNone(v: Vm, pd: nat, lo: nat)
    ensures MissingRows(v.mem, pd, lo, lo) == {} && RowsMade(v, v, pd, {}, 0)
  {
  }

  /** A new table takes one frame and fills one row. */
  lemma WithTableRows(v: Vm, pd: nat, i: nat, user: bool)
    requires Base(v) && pd in v.spaces && i < ENTRIES && !Pde(v.mem, pd, i).present && FirstFree(v.bits) != 0
    requires pd < |v.mem|
    ensures |v.mem| == |v.bits| == |v.refs| && FirstFree(v.bits) < |v.mem|
    ensures RowsMade(v, WithTable(v, pd, i, FirstFree(v.bits), user), pd, {i}, 0)
  {
    var g := FirstFree(v.bits);
    assert g in FreeSet(v.bits);
    TakeOne(v.bits);
    WithTableSame(v, pd, i, g, user);
  }

  lemma TakenTrans(v: Vm, v1: Vm, v2: Vm)
    requires TablesTaken(v, v1) && TablesTaken(v1, v2)
    ensures TablesTaken(v, v2)
  {
  }

  lemma MappedNone(v: Vm, pd: nat, lo: nat, frame: nat, writable: bool, user: bool)
    requires Base(v)
    ensures Mapped(v, v, pd, lo, lo, frame, writable, user)
  {
  }

  /** A new table changes no translation. */
  lemma MappedTable(v: Vm, v1: Vm, pd: nat, lo: nat, hi: nat, frame: nat, writable: bool, user: bool, i: nat, g: nat)
    requires Mapped(v, v1, pd, lo, hi, frame, writable, user) && pd in v.spaces && i < ENTRIES
    requires !Pde(v1.mem, pd, i).present
    requires 1 <= g < |v1.mem| && !v1.bits[g] && pd < |v1.mem| && lo < (i + 1) * ENTRIES
    ensures Mapped(v, WithTable(v1, pd, i, g, user), pd, lo, hi, frame, writable, user)
    ensures Pde(WithTable(v1, pd, i, g, user).mem, pd, i) == Leaf(g, true, user)
  {
    hide TablesTaken, KernelHalf;
    WithTableSame(v1, pd, i, g, user);
    WithTableBase(v1, pd, i, g, user);
    TakenTrans(v, v1, WithTable(v1, pd, i, g, user));
  }

  /** The next entry is filled. */
  lemma MappedNext(v: Vm, v1: Vm, pd: nat, lo: nat, frame: nat, writable: bool, user: bool, i: nat, j: nat)
    requires i < ENTRIES && j < ENTRIES && lo <= i * ENTRIES + j
    requires Mapped(v, v1, pd, lo, i * ENTRIES + j, frame, writable, user) && pd in v.spaces
    requires Pde(v1.mem, pd, i).present
    ensures Pde(v1.mem, pd, i).frame < |v1.mem|
    ensures var w := Leaf(frame + (i * ENTRIES + j - lo), writable, user);
      var v' := v1.(mem := SetCell(v1.mem, Pde(v1.mem, pd, i).frame, j, w));
      Mapped(v, v', pd, lo, i * ENTRIES + j + 1, frame, writable, user) && PdesSame(v1.mem, v'.mem, pd)
  {
    hide TablesTaken, KernelHalf;
    var w := Leaf(frame + (i * ENTRIES + j - lo), writable, user);
    BaseSetPte(v1, pd, i, j, w);
    TakenTrans(v, v1, v1.(mem := SetCell(v1.mem, Pde(v1.mem, pd, i).frame, j, w)));
  }

  /** get_or_create_page_table: afterwards row `i` of `pd` has a table, unless it had none and
      no frame is free. */
  method GetOrCreateTable(m: Machine, pd: nat, i: nat, user: bool) returns (ok: bool, t: nat)
    requires m.pmm.Valid() && Base(m.V()) && pd in m.spaces && i < ENTRIES
    modifies m`mem, m`role, m.pmm
    ensures m.pmm.Valid()
    ensures ok <==> old(Pde(m.mem, pd, i).present || FirstFree(m.pmm.bits) != 0)
    ensures if ok && !old(Pde(m.mem, pd, i).present)
      then
        && old(pd < |m.mem| && FirstFree(m.pmm.bits) < |m.mem|)
        && m.V() == WithTable(old(m.V()), pd, i, old(FirstFree(m.pmm.bits)), user)
      else m.V() == old(m.V())
    ensures ok ==> Pde(m.mem, pd, i).present && t == Pde(m.mem, pd, i).frame < |m.mem|
  {
    assert pd in m.role;
    var d := Cell(m.mem, pd, i);
    if d.present {
      assert d == Pde(m.mem, pd, i) && d.frame in m.role;
      return true, d.frame;
    }
    t := m.AllocFrame();
    if t == 0 { return false, 0; }
    assert t != pd;
    m.mem := m.mem[t := seq(ENTRIES, _ => ZERO)];
    m.mem := SetCell(m.mem, pd, i, MapWord(t, true, user));
    m.role := m.role[t := if i < KERNEL_PD then Table(pd, i) else KernelTable(i)];
    return true, t;
  }

  /** The table of a row, while a mapping is under way. */
  method TableFor(m: Machine, pd: nat, i: nat, user: bool,
                  ghost v: Vm, ghost lo: nat, ghost hi: nat, ghost frame: nat, ghost writable: bool)
                    returns (ok: bool, t: nat)
    requires m.pmm.Valid() && i < ENTRIES && pd in v.spaces && Mapped(v, m.V(), pd, lo, hi, frame, writable, user)
    requires lo < (i + 1) * ENTRIES
    modifies m`mem, m`role, m.pmm
    ensures m.pmm.Valid() && Mapped(v, m.V(), pd, lo, hi, frame, writable, user)
    ensures ok ==> Pde(m.mem, pd, i).present && t == Pde(m.mem, pd, i).frame
    ensures !ok ==> FirstFree(m.pmm.bits) == 0 && m.V() == old(m.V()) && !Pde(m.mem, pd, i).present
    ensures ok ==> RowsMade(old(m.V()), m.V(), pd, if old(Pde(m.mem, pd, i).present) then {} else {i}, 0)
  {
    ghost var v1 := m.V();
    RowsNone(v1, pd, lo);
    ok, t := GetOrCreateTable(m, pd, i, user);
    if ok && !Pde(v1.mem, pd, i).present {
      MappedTable(v, v1, pd, lo, hi, frame, writable, user, i, FirstFree(v1.bits));
      WithTableRows(v1, pd, i, user);
    }
  }

  /** One entry of fill_page_table_entries. */
  method FillEntry(m: Machine, pd: nat, i: nat, j: nat, t: nat, w: Word, ghost v: Vm, ghost lo: nat, ghost frame: nat)
    requires m.pmm.Valid() && i < ENTRIES && j < ENTRIES && lo <= i * ENTRIES + j && pd in v.spaces
    requires Mapped(v, m.V(), pd, lo, i * ENTRIES + j, frame, w.writable, w.user)
    requires Pde(m.mem, pd, i).present && t == Pde(m.mem, pd, i).frame
    requires w == Leaf(frame + (i * ENTRIES + j - lo), w.writable, w.user)
    modifies m`mem
    ensures Mapped(v, m.V(), pd, lo, i * ENTRIES + j + 1, frame, w.writable, w.user) && PdesSame(old(m.mem), m.mem, pd)
  {
    MappedNext(v, m.V(), pd, lo, frame, w.writable, w.user, i, j);
    m.mem := SetCell(m.mem, t, j, w);
  }

  /** map_page_table_range: `count` pages from (i, j), all in one table. */
  method MapChunk(m: Machine, pd: nat, i: nat, j: nat, count: nat, pa: nat, writable: bool, user: bool,
                  ghost v: Vm, ghost lo: nat, ghost frame: nat) returns (ok: bool)
    requires m.pmm.Valid() && i < ENTRIES && j < ENTRIES && j + count <= ENTRIES && lo <= i * ENTRIES + j
    requires pd in v.spaces && Base(v)
    requires Mapped(v, m.V(), pd, lo, i * ENTRIES + j, frame, writable, user) && pa == frame + (i * ENTRIES + j - lo)
    modifies m`mem, m`role, m.pmm
    ensures m.pmm.Valid()
    ensures Mapped(v, m.V(), pd, lo, i * ENTRIES + j + (if ok then count else 0), frame, writable, user)
    ensures !ok ==> FirstFree(m.pmm.bits) == 0 && m.V() == old(m.V()) && !Pde(m.mem, pd, i).present
    ensures ok ==> RowsMade(old(m.V()), m.V(), pd, if old(Pde(m.mem, pd, i).present) then {} else {i}, 0)
  {
    hide Mapped, Base, RowsMade;
    var t;
    ok, t := TableFor(m, pd, i, user, v, lo, i * ENTRIES + j, frame, writable);
    if !ok { return; }
    ghost var v1 := m.V();
    var k := 0;
    while k < count
      invariant 0 <= k <= count && m.pmm.Valid() && m.pmm.bits == v1.bits && m.pmm.refs == v1.refs
      invariant Pde(m.mem, pd, i).present && t == Pde(m.mem, pd, i).frame && PdesSame(v1.mem, m.mem, pd)
      invariant Mapped(v, m.V(), pd, lo, i * ENTRIES + j + k, frame, writable, user)
    {
      FillEntry(m, pd, i, j + k, t, MapWord(pa + k, writable, user), v, lo, frame);
      k := k + 1;
    }
    RowsSame(old(m.V()), v1, m.V(), pd, if old(Pde(m.mem, pd, i).present) then {} else {i}, 0);
  }

  /** The page at which the loops stop: the end address is a 32-bit sum. */
  function RangeEnd(first: nat, count: nat): nat {
    (first + count) % PAGES
  }

  /** hal_vm_map_range. `done` is the page where the loop stopped: the end of the range, or the
      first page of a table for which no frame was left. A range that reaches the top of the
      address space has an end address that wraps, and nothing is mapped. */
  method MapRange(m: Machine, pd: nat, frame: nat, first: nat, count: nat, writable: bool, user: bool)
    returns (ok: bool, ghost done: nat)
    requires m.pmm.Valid() && Base(m.V()) && pd in m.spaces && first < PAGES && count <= PAGES
    modifies m`mem, m`role, m.pmm
    ensures m.pmm.Valid() && first <= done && Mapped(old(m.V()), m.V(), pd, first, done, frame, writable, user)
    ensures first + count < PAGES ==> done <= first + count && (ok <==> done == first + count)
    ensures first + count >= PAGES || done == first ==> m.V() == old(m.V())
    ensures first + count >= PAGES ==> ok
    ensures !ok ==> FirstFree(m.pmm.bits) == 0 && !Pde(m.mem, pd, done / ENTRIES).present
    ensures first + count < PAGES ==> (ok <==> Affords(old(m.V()), pd, first, first + count, 0))
    ensures RowsMade(old(m.V()), m.V(), pd, MissingRows(old(m.mem), pd, first, done), 0)
  {
    hide Mapped, Base, RowsMade, MissingRows, FreeSet, Affords;
    ghost var v := m.V();
    done := first;
    MappedNone(v, pd, first, frame, writable, user);
    RowsNone(v, pd, first);
    Afforded(v, v, pd, first, first);
    if count == 0 { return true, done; }
    var cur, pa, end := first, frame, RangeEnd(first, count);
    while cur < end
      invariant first <= cur && (cur <= end || cur == first) && pa == frame + (cur - first)
      invariant end == RangeEnd(first, count) && m.pmm.Valid()
      invariant Mapped(v, m.V(), pd, first, cur, frame, writable, user)
      invariant first + count >= PAGES || cur == first ==> m.V() == v
      invariant RowsMade(v, m.V(), pd, MissingRows(v.mem, pd, first, cur), 0)
    {
      var j := cur % ENTRIES;
      var n := if ENTRIES - j < end - cur then ENTRIES - j else end - cur;
      ok := MapPart(m, pd, cur, n, pa, writable, user, v, first, frame, end);
      if !ok { return false, cur; }
      cur, pa := cur + n, pa + n;
    }
    Afforded(v, m.V(), pd, first, cur);
    return true, cur;
  }

  /** One round of the loop: the part of the range that lies in one table. */
  method MapPart(m: Machine, pd: nat, cur: nat, n: nat, pa: nat, writable: bool, user: bool,
                 ghost v: Vm, ghost first: nat, ghost frame: nat, ghost end: nat) returns (ok: bool)
    requires m.pmm.Valid() && first <= cur < cur + n <= end < PAGES && cur % ENTRIES + n <= ENTRIES && pd in v.spaces
    requires Base(v)
    requires Mapped(v, m.V(), pd, first, cur, frame, writable, user) && pa == frame + (cur - first)
    requires RowsMade(v, m.V(), pd, MissingRows(v.mem, pd, first, cur), 0)
    modifies m`mem, m`role, m.pmm
    ensures m.pmm.Valid() && Mapped(v, m.V(), pd, first, if ok then cur + n else cur, frame, writable, user)
    ensures ok ==> RowsMade(v, m.V(), pd, MissingRows(v.mem, pd, first, cur + n), 0)
    ensures !ok ==>
      m.V() == old(m.V()) && FirstFree(m.pmm.bits) == 0 && !Pde(m.mem, pd, cur / ENTRIES).present
        && !Affords(v, pd, first, end, 0)
  {
    hide Mapped, Base, RowsMade, MissingRows, FreeSet, Affords;
    ghost var v1, i := m.V(), cur / ENTRIES;
    ok := MapChunk(m, pd, cur / ENTRIES, cur % ENTRIES, n, pa, writable, user, v, first, frame);
    RowsNext(v, v1, pd, first, cur, cur + n, 0);
    if ok {
      RowsJoined(v, v1, m.V(), pd, MissingRows(v.mem, pd, first, cur), i);
    } else {
      NotAfforded(v, v1, pd, first, cur, cur + n, end);
    }
  }

  lemma Afforded(v: Vm, v': Vm, pd: nat, lo: nat, hi: nat)
    requires RowsMade(v, v', pd, MissingRows(v.mem, pd, lo, hi), 0)
    ensures Affords(v, pd, lo, hi, 0)
  {
  }

  lemma RowsJoined(v: Vm, v1: Vm, v2: Vm, pd: nat, rows: set<nat>, i: nat)
    requires RowsMade(v, v1, pd, rows, 0) && i < ENTRIES
    requires RowsMade(v1, v2, pd, if Pde(v1.mem, pd, i).present then {} else {i}, 0)
    ensures RowsMade(v, v2, pd, rows + if Pde(v1.mem, pd, i).present then {} else {i}, 0)
  {
    hide FreeSet, Pde;
    if Pde(v1.mem, pd, i).present {
      assert rows + {} == rows;
    } else {
      RowsMore(v, v1, v2, pd, rows, 0, i);
    }
  }

  lemma {:induction false} MissingRowsMono(mem: Memory, pd: nat, lo: nat, mid: nat, hi: nat)
    requires mid <= hi
    ensures |MissingRows(mem, pd, lo, mid)| <= |MissingRows(mem, pd, lo, hi)|
  {
    SubsetSize(MissingRows(mem, pd, lo, mid), MissingRows(mem, pd, lo, hi));
  }

  /** The loop stops only where the whole range is not affordable. */
  lemma NotAfforded(v: Vm, v1: Vm, pd: nat, lo: nat, cur: nat, next: nat, end: nat)
    requires RowsMade(v, v1, pd, MissingRows(v.mem, pd, lo, cur), 0) && FirstFree(v1.bits) == 0
    requires lo <= cur < next <= end
    requires |MissingRows(v.mem, pd, lo, next)| > |MissingRows(v.mem, pd, lo, cur)|
    ensures !Affords(v, pd, lo, end, 0)
  {
    hide MissingRows;
    assert FreeSet(v1.bits) == {};
    MissingRowsMono(v.mem, pd, lo, next, end);
  }

  /** hal_vm_virt_to_phys. */
  function VirtToPhys(mem: Memory, pd: nat, va: nat): nat {
    var w := Pte(mem, pd, PdIndex(va), PtIndex(va));
    if w.present then w.frame * PAGE + va % PAGE else 0
  }

  /** Byte by byte: a mapped range translates linearly, everything else is untouched. */
  lemma MappedBytes(v: Vm, v': Vm, pd: nat, lo: nat, hi: nat, frame: nat, writable: bool, user: bool, q: nat, va: nat)
    requires Mapped(v, v', pd, lo, hi, frame, writable, user) && q in v.spaces && va < PAGES * PAGE
    ensures VirtToPhys(v'.mem, q, va) ==
      if lo * PAGE <= va < hi * PAGE && (q == pd || va >= KERNEL_BASE) then frame * PAGE + (va - lo * PAGE)
      else VirtToPhys(v.mem, q, va)
  {
    var a, b := PdIndex(va), PtIndex(va);
    assert a * ENTRIES + b == va / PAGE;
    assert Pte(v'.mem, q, a, b) == if Touches(q, a, b, pd, lo, hi)
      then Leaf(frame + (a * ENTRIES + b - lo), writable, user) else Pte(v.mem, q, a, b);
  }

  /** Every space translates kernel addresses as the kernel's own space does. */
  lemma Coherent(v: Vm, q: nat, va: nat)
    requires KernelHalf(v) && q in v.spaces && KERNEL_BASE <= va < PAGES * PAGE
    ensures VirtToPhys(v.mem, q, va) == VirtToPhys(v.mem, v.kernel, va)
  {
    assert KERNEL_PD <= PdIndex(va) < ENTRIES;
    assert Pde(v.mem, q, PdIndex(va)) == Pde(v.mem, v.kernel, PdIndex(va));
  }
}
