/** Address spaces: creation, destruction, the boot sequence, mappings in the kernel half, and
    the loads and stores of running programs. */
module VmmSpace {
  import opened Common
  import opened PteBits
  import opened PageTables
  import opened Pmm
  import opened Bitmap
  import opened Vmm
  import opened VmmFork
  import opened VmmMap
  import opened VmmUnmap

  /** The kernel's directory copied to the free frame `g`. */
  ghost function WithSpace(v: Vm, g: nat): Vm
    requires |v.mem| == |v.bits| == |v.refs| && g < |v.mem| && v.kernel < |v.mem|
  {
    v.(mem := v.mem[g := v.mem[v.kernel]], bits := v.bits[g := true], refs := v.refs[g := 1],
       role := v.role[g := Directory], spaces := v.spaces + {g})
  }

  lemma WithSpaceTables(v: Vm, g: nat)
    requires Inv(v) && 1 <= g < |v.mem| && !v.bits[g] && EmptyUser(v.mem, v.kernel) && v.kernel < |v.mem|
    ensures g !in v.role && g !in v.spaces && TablesSame(v.spaces, v.mem, WithSpace(v, g).mem)
    ensures forall a: nat :: Pde(WithSpace(v, g).mem, g, a) == Pde(v.mem, v.kernel, a)
    ensures EmptyUser(WithSpace(v, g).mem, g)
  {
    assert g !in v.role;
    SetData(v, g, v.mem[v.kernel]);
  }

  lemma WithSpaceSharers(v: Vm, g: nat)
    requires Inv(v) && 1 <= g < |v.mem| && !v.bits[g] && EmptyUser(v.mem, v.kernel) && v.kernel < |v.mem|
    ensures var v' := WithSpace(v, g);
      && (forall q, a: nat, b: nat, f: nat :: q in v'.spaces ==>
        (UserMaps(v'.mem, q, a, b, f) <==> q != g && UserMaps(v.mem, q, a, b, f)))
      && (forall f: nat :: Sharers(v', f) == Sharers(v, f))
  {
    hide Inv;
    Known(v);
    WithSpaceTables(v, g);
    var v' := WithSpace(v, g);
    assert forall q, a: nat, b: nat, f: nat :: q in v'.spaces ==>
      (UserMaps(v'.mem, q, a, b, f) <==> q != g && UserMaps(v.mem, q, a, b, f));
    forall f: nat, q | q in v'.spaces ensures MapsIn(v'.mem, q, f) <==> q != g && MapsIn(v.mem, q, f) {
      if q != g && MapsIn(v.mem, q, f) {
        var a: nat, b: nat :| UserMaps(v.mem, q, a, b, f);
        assert UserMaps(v'.mem, q, a, b, f);
      }
    }
    forall f: nat ensures Sharers(v', f) == Sharers(v, f) {}
  }

  /** A new space shares the kernel half and has no user pages. */
  lemma WithSpaceInv(v: Vm, g: nat)
    requires Inv(v) && 1 <= g < |v.mem| && !v.bits[g] && EmptyUser(v.mem, v.kernel) && v.kernel < |v.mem|
    ensures Inv(WithSpace(v, g)) && ViewsSame(v.spaces, v.mem, WithSpace(v, g).mem)
  {
    WithSpaceTables(v, g);
    WithSpaceSharers(v, g);
    WithSpaceCore(v, g);
    var v' := WithSpace(v, g);
    forall f | 0 <= f < |v'.mem| ensures |Sharers(v', f)| <= v'.refs[f] {
      if f == g { FreeUnmapped(v, g); }
    }
    WithSpaceData(v, g);
    FreeUnmapped(v, g);
    DataViews(v, v', g);
  }

  lemma WithSpaceCore(v: Vm, g: nat)
    requires Inv(v) && 1 <= g < |v.mem| && !v.bits[g] && EmptyUser(v.mem, v.kernel) && v.kernel < |v.mem|
    ensures var v' := WithSpace(v, g); Shape(v') && Tabled(v') && KernelHalf(v')
  {
    WithSpaceTables(v, g);
  }

  lemma WithSpaceData(v: Vm, g: nat)
    requires Inv(v) && 1 <= g < |v.mem| && !v.bits[g] && EmptyUser(v.mem, v.kernel) && v.kernel < |v.mem|
    ensures var v' := WithSpace(v, g); DataOk(v') && Exclusive(v')
  {
    WithSpaceTables(v, g);
    WithSpaceSharers(v, g);
    hide Shape, Tabled, KernelHalf, Counted, Sharers;
    var v' := WithSpace(v, g);
    assert DataOk(v');
    forall q, a: nat, b: nat, f: nat, q' | q in v'.spaces && q' in v'.spaces && UserMaps(v'.mem, q, a, b, f)
        && Pte(v'.mem, q, a, b).writable && MapsIn(v'.mem, q', f)
      ensures q' == q
    {
      var c: nat, d: nat :| UserMaps(v'.mem, q', c, d, f);
      assert UserMaps(v.mem, q', c, d, f) && UserMaps(v.mem, q, a, b, f);
    }
  }

  /** A frame that backs no page changes: no page changes. */
  lemma DataViews(v: Vm, v': Vm, g: nat)
    requires Inv(v) && TablesSame(v.spaces, v.mem, v'.mem) && |v'.mem| == |v.mem|
    requires forall q, a: nat, b: nat :: q in v.spaces ==> !UserMaps(v.mem, q, a, b, g)
    requires forall f :: 0 <= f < |v.mem| && f != g && f !in v.role ==> v'.mem[f] == v.mem[f]
    ensures ViewsSame(v.spaces, v.mem, v'.mem)
  {
    forall q, a: nat, b: nat | q in v.spaces && a < KERNEL_PD && b < ENTRIES
      ensures PageAt(v'.mem, q, a, b) == PageAt(v.mem, q, a, b)
    {
      var x := Pte(v.mem, q, a, b);
      if x.present { assert UserMaps(v.mem, q, a, b, x.frame); }
    }
  }

  /** hal_vm_empty_arch_vm_create followed by hal_vm_arch_clone_mapping from the kernel. */
  method CreateSpace(m: Machine) returns (ok: bool, pd: nat)
    requires m.Ok() && EmptyUser(m.mem, m.kernel)
    modifies m`mem, m`role, m`spaces, m.pmm
    ensures m.Ok() && (ok <==> FreeSet(old(m.pmm.bits)) != {})
    ensures !ok ==> m.V() == old(m.V())
    ensures ok ==>
      m.kernel < |old(m.mem)| && pd < |old(m.mem)| && pd !in old(m.spaces) && m.V() == WithSpace(old(m.V()), pd)
    ensures ok ==>
      pd == FirstFree(old(m.pmm.bits)) != 0 && EmptyUser(m.mem, pd) && ViewsSame(old(m.spaces), old(m.mem), m.mem)
  {
    hide Inv, EmptyUser, ViewsSame;
    ghost var v := m.V();
    Known(v);
    pd := m.AllocFrame();
    if pd == 0 { return false, 0; }
    WithSpaceTables(v, pd);
    WithSpaceInv(v, pd);
    m.mem := m.mem[pd := seq(ENTRIES, _ => ZERO)];
    m.mem := m.mem[pd := m.mem[m.kernel]];
    m.role := m.role[pd := Directory];
    m.spaces := m.spaces + {pd};
    assert m.V() == WithSpace(v, pd);
    assert pd in FreeSet(v.bits);
    return true, pd;
  }

  lemma Known(v: Vm)
    requires Inv(v)
    ensures |v.mem| == |v.bits| == |v.refs| && v.kernel in v.spaces && v.kernel in v.role && v.kernel < |v.mem|
    ensures forall f :: f in v.role ==> 1 <= f < |v.bits| && v.bits[f]
  {
    assert v.kernel in v.role;
  }

  /** The frame `t` is given up and holds no table any more. */
  ghost function Dropped(v: Vm, t: nat): Vm
    requires |v.bits| == |v.refs| && t < |v.bits|
  {
    v.(role := v.role - {t},
       refs := if v.bits[t] && v.refs[t] > 0 then v.refs[t := v.refs[t] - 1] else v.refs,
       bits := if v.bits[t] && v.refs[t] <= 1 then v.bits[t := false] else v.bits)
  }

  /** A directory or table of no live space. */
  ghost predicate Orphan(v: Vm, t: nat) {
    t in v.role && t !in v.spaces && !v.role[t].KernelTable? && (v.role[t].Table? ==> v.role[t].pd !in v.spaces)
  }

  lemma DroppedInv(v: Vm, t: nat)
    requires Inv(v) && Orphan(v, t) && t < |v.bits|
    ensures |v.bits| == |v.refs| && Inv(Dropped(v, t))
  {
    var v' := Dropped(v, t);
    assert forall f: nat :: Sharers(v', f) == Sharers(v, f);
    DroppedTabled(v, t);
    forall q | q in v.spaces ensures !MapsIn(v.mem, q, t) {}
    assert Sharers(v, t) == {};
    hide Tabled, KernelHalf;
  }

  lemma DroppedTabled(v: Vm, t: nat)
    requires Inv(v) && Orphan(v, t) && t < |v.bits| == |v.refs|
    ensures Tabled(Dropped(v, t))
  {
    hide KernelHalf, DataOk, Exclusive, Counted;
  }

  /** The tables in the first `i` rows of the directory `pd`. */
  ghost function TablesBelow(mem: Memory, pd: nat, i: nat): set<nat> {
    if i == 0 then {} else TablesBelow(mem, pd, i - 1) + if Pde(mem, pd, i - 1).present
      then {Pde(mem, pd, i - 1).frame} else {}
  }

  /** What is left to free of a space that is no longer live: its tables from row `i` on, and
      its directory. */
  ghost predicate Leaving(v: Vm, pd: nat, i: nat) {
    && pd !in v.spaces && pd in v.role && v.role[pd] == Directory
    && (forall a: nat :: i <= a < KERNEL_PD && Pde(v.mem, pd, a).present ==>
          Pde(v.mem, pd, a).frame in v.role && v.role[Pde(v.mem, pd, a).frame] == Table(pd, a))
  }

  /** Exactly the frames in `gone`, all of them directories or tables, are free again. */
  ghost predicate GaveUp(v: Vm, v': Vm, gone: set<nat>) {
    && v'.mem == v.mem && v'.kernel == v.kernel && |v'.bits| == |v'.refs| == |v.bits| == |v.refs|
    && gone <= v.role.Keys && v'.role == v.role - gone
    && (forall f :: 0 <= f < |v.bits| ==>
      v'.bits[f] == (v.bits[f] && f !in gone) && v'.refs[f] == if f in gone then 0 else v.refs[f])
  }

  lemma GaveUpNext(v: Vm, v1: Vm, gone: set<nat>, t: nat)
    requires GaveUp(v, v1, gone) && t in v1.role && t < |v1.bits| && v1.bits[t] && v1.refs[t] == 1
    ensures GaveUp(v, Dropped(v1, t), gone + {t})
  {
    assert v.role - gone - {t} == v.role - (gone + {t});
  }

  lemma LeavingStep(v: Vm, v1: Vm, pd: nat, i: nat)
    requires Inv(v1) && Leaving(v1, pd, i) && GaveUp(v, v1, TablesBelow(v.mem, pd, i)) && i < KERNEL_PD
    requires Pde(v1.mem, pd, i).present
    ensures var t := Pde(v1.mem, pd, i).frame;
      && t in v1.role && 1 <= t < |v1.bits| == |v1.refs| && Orphan(v1, t)
      && Leaving(Dropped(v1, t), pd, i + 1) && GaveUp(v, Dropped(v1, t), TablesBelow(v.mem, pd, i + 1))
  {
    hide KernelHalf, DataOk, Exclusive, Counted;
    var t := Pde(v1.mem, pd, i).frame;
    assert t in v1.role && v1.role[t] == Table(pd, i);
    GaveUpNext(v, v1, TablesBelow(v.mem, pd, i), t);
  }

  /** One table of hal_vm_arch_destroy. */
  method DropTable(m: Machine, pd: nat, i: nat, ghost v: Vm)
    requires m.Ok() && Leaving(m.V(), pd, i) && GaveUp(v, m.V(), TablesBelow(v.mem, pd, i)) && i < KERNEL_PD
    modifies m`role, m.pmm
    ensures m.Ok() && Leaving(m.V(), pd, i + 1) && GaveUp(v, m.V(), TablesBelow(v.mem, pd, i + 1))
  {
    hide Inv, GaveUp;
    ghost var v1 := m.V();
    assert v1.mem == v.mem by { SameMem(v, v1, TablesBelow(v.mem, pd, i)); }
    var d := Cell(m.mem, pd, i);
    if d.present {
      LeavingStep(v, v1, pd, i);
      DroppedInv(v1, d.frame);
      m.pmm.FrameFree(d.frame * PAGE);
      m.role := m.role - {d.frame};
      assert m.V() == Dropped(v1, d.frame);
    } else {
      assert TablesBelow(v.mem, pd, i + 1) == TablesBelow(v.mem, pd, i);
    }
  }

  lemma SameMem(v: Vm, v': Vm, gone: set<nat>)
    requires GaveUp(v, v', gone)
    ensures v'.mem == v.mem && v'.kernel == v.kernel
  {
  }

  lemma LeavingStart(v: Vm, pd: nat)
    requires Inv(v) && pd in v.spaces && pd != v.kernel
    ensures var v' := v.(spaces := v.spaces - {pd}); Inv(v') && Leaving(v', pd, 0) && GaveUp(v, v', {})
  {
    DropSpace(v, pd);
  }

  lemma LeavingEnd(v: Vm, v1: Vm, pd: nat)
    requires Inv(v1) && Leaving(v1, pd, KERNEL_PD) && GaveUp(v, v1, TablesBelow(v.mem, pd, KERNEL_PD))
    ensures 1 <= pd < |v1.bits| == |v1.refs| && Orphan(v1, pd) && GaveUp(v, Dropped(v1, pd), Belongings(v.mem, pd))
  {
    hide KernelHalf, DataOk, Exclusive, Counted, Tabled, TablesBelow;
    GaveUpNext(v, v1, TablesBelow(v.mem, pd, KERNEL_PD), pd);
  }

  /** The frames of a space itself: its directory and its user tables. */
  ghost function Belongings(mem: Memory, pd: nat): set<nat> {
    TablesBelow(mem, pd, KERNEL_PD) + {pd}
  }

  lemma {:induction false} BelowIs(v: Vm, pd: nat, i: nat)
    requires Inv(v) && pd in v.spaces && i <= KERNEL_PD
    ensures forall f :: f in TablesBelow(v.mem, pd, i) ==>
      f in v.role && v.role[f].Table? && v.role[f].pd == pd && v.role[f].i < i
  {
    hide KernelHalf, DataOk, Exclusive, Counted, Shape, Cell;
    if i > 0 { BelowIs(v, pd, i - 1); }
  }

  lemma NewTable(v: Vm, pd: nat, i: nat)
    requires Inv(v) && pd in v.spaces && i < KERNEL_PD && Pde(v.mem, pd, i).present
    ensures Pde(v.mem, pd, i).frame !in TablesBelow(v.mem, pd, i)
  {
    BelowIs(v, pd, i);
    hide KernelHalf, DataOk, Exclusive, Counted, Shape, Cell, TablesBelow;
  }

  lemma {:induction false} BelowCount(v: Vm, pd: nat, i: nat)
    requires Inv(v) && pd in v.spaces && i <= KERNEL_PD
    ensures |TablesBelow(v.mem, pd, i)| + |ToCopy(v.mem, pd, i)| == |ToCopy(v.mem, pd, 0)|
  {
    hide Inv, ToCopy, Cell;
    if i > 0 {
      BelowCount(v, pd, i - 1);
      ToCopyNext(v.mem, pd, i - 1);
      if Pde(v.mem, pd, i - 1).present { NewTable(v, pd, i - 1); }
    }
  }

  /** They are the directory and tables of this space alone, and there is one for each table. */
  lemma BelongingsAre(v: Vm, pd: nat)
    requires Inv(v) && pd in v.spaces
    ensures forall f :: f in Belongings(v.mem, pd) ==>
      f in v.role && (f == pd || (v.role[f].Table? && v.role[f].pd == pd))
    ensures |Belongings(v.mem, pd)| == |ToCopy(v.mem, pd, 0)| + 1
  {
    BelowIs(v, pd, KERNEL_PD);
    BelowCount(v, pd, KERNEL_PD);
    hide KernelHalf, DataOk, Exclusive, Counted, Shape, TablesBelow, ToCopy;
    assert v.role[pd] == Directory;
    NoneToCopy(v.mem, pd);
  }

  /** hal_vm_arch_destroy: the space is gone, no other space notices, and exactly its directory and
      its user tables are free again; no data frame loses a reference. */
  method DestroySpace(m: Machine, pd: nat)
    requires m.Ok() && pd in m.spaces && pd != m.kernel
    modifies m`role, m`spaces, m.pmm
    ensures m.Ok() && m.spaces == old(m.spaces) - {pd} && GaveUp(old(m.V()), m.V(), Belongings(old(m.mem), pd))
  {
    hide Inv, GaveUp, Leaving, TablesBelow;
    ghost var v := m.V();
    LeavingStart(v, pd);
    m.spaces := m.spaces - {pd};
    var i := 0;
    assert TablesBelow(v.mem, pd, 0) == {} by { NoTables(v.mem, pd); }
    while i < KERNEL_PD
      invariant 0 <= i <= KERNEL_PD && m.Ok() && Leaving(m.V(), pd, i) && GaveUp(v, m.V(), TablesBelow(v.mem, pd, i))
      invariant m.spaces == old(m.spaces) - {pd}
    {
      DropTable(m, pd, i, v);
      i := i + 1;
    }
    ghost var v1 := m.V();
    LeavingEnd(v, v1, pd);
    DroppedInv(v1, pd);
    m.pmm.FrameFree(pd * PAGE);
    m.role := m.role - {pd};
    assert m.V() == Dropped(v1, pd);
  }

  lemma NoTables(mem: Memory, pd: nat)
    ensures TablesBelow(mem, pd, 0) == {}
  {
  }

  /** A store to a page that may be written at once changes that page of that space only. */
  lemma StoreSeen(v: Vm, pd: nat, i: nat, j: nat, k: nat, w: Word)
    requires Inv(v) && pd in v.spaces && i < KERNEL_PD && j < ENTRIES && k < ENTRIES
    requires Pte(v.mem, pd, i, j).present && Pte(v.mem, pd, i, j).writable
    ensures var f := Pte(v.mem, pd, i, j).frame;
      && f < |v.mem| && |v.mem[f]| == ENTRIES
      && Inv(v.(mem := SetCell(v.mem, f, k, w)))
      && Stored(v.spaces, v.mem, SetCell(v.mem, f, k, w), pd, i, j, k, w)
  {
    var f := Pte(v.mem, pd, i, j).frame;
    assert UserMaps(v.mem, pd, i, j, f);
    var v' := v.(mem := SetCell(v.mem, f, k, w));
    SetData(v, f, v.mem[f][k := w]);
    UnnoticedInv(v, v');
    forall q, a: nat, b: nat | q in v.spaces && a < KERNEL_PD && b < ENTRIES
      ensures StoredAt(v.mem, v'.mem, pd, i, j, k, w, q, a, b)
    {
      OnlyHere(v, pd, i, j, f, q, a, b);
    }
  }

  /** Page (a, b) of `q` after a store to word `k` of page (i, j) of `pd`. */
  predicate StoredAt(mem: Memory, mem': Memory, pd: nat, i: nat, j: nat, k: nat, w: Word, q: nat, a: nat, b: nat) {
    var p, p' := PageAt(mem, q, a, b), PageAt(mem', q, a, b);
    if q == pd && a == i && b == j
    then p.Some? && k < |p.value.content| && p' == Some(p.value.(content := p.value.content[k := w]))
    else p' == p
  }

  ghost predicate Stored(spaces: set<nat>, mem: Memory, mem': Memory, pd: nat, i: nat, j: nat, k: nat, w: Word) {
    forall q, a: nat, b: nat :: q in spaces && a < KERNEL_PD && b < ENTRIES ==>
      StoredAt(mem, mem', pd, i, j, k, w, q, a, b)
  }

  /** A frame under a writable entry backs no other page of any space. */
  lemma OnlyHere(v: Vm, pd: nat, i: nat, j: nat, f: nat, q: nat, a: nat, b: nat)
    requires Inv(v) && pd in v.spaces && q in v.spaces && a < KERNEL_PD && b < ENTRIES
    requires UserMaps(v.mem, pd, i, j, f) && Pte(v.mem, pd, i, j).writable
    ensures UserMaps(v.mem, q, a, b, f) <==> q == pd && a == i && b == j
  {
    hide Shape, Tabled, KernelHalf, Counted;
    if UserMaps(v.mem, q, a, b, f) { assert MapsIn(v.mem, q, f); }
  }

  lemma StoredAfterCopy(spaces: set<nat>, mem: Memory, mem1: Memory, mem2: Memory, pd: nat, i: nat, j: nat, k: nat,
    w: Word)
    requires ViewsSame(spaces, mem, mem1) && Stored(spaces, mem1, mem2, pd, i, j, k, w)
    ensures Stored(spaces, mem, mem2, pd, i, j, k, w)
  {
    forall q, a: nat, b: nat | q in spaces && a < KERNEL_PD && b < ENTRIES
      ensures StoredAt(mem, mem2, pd, i, j, k, w, q, a, b)
    {
      assert StoredAt(mem1, mem2, pd, i, j, k, w, q, a, b);
    }
  }

  /** The frame a store takes: the first free one if the page is copied, else none. */
  ghost predicate CopyTaken(v: Vm, v': Vm, copied: bool) {
    var g := FirstFree(v.bits);
    if copied then 1 <= g < |v.bits| == |v.refs| && v'.bits == v.bits[g := true] && v'.refs == v.refs[g := 1]
    else v'.bits == v.bits && v'.refs == v.refs
  }

  lemma NothingDone(v: Vm)
    ensures ViewsSame(v.spaces, v.mem, v.mem) && KernelSame(v.mem, v.mem, v.kernel)
    ensures DirsSame(v.spaces, v.mem, v.mem)
  {
  }

  /** An entry and the page it shows. */
  lemma EntryView(v: Vm, pd: nat, i: nat, j: nat)
    requires Inv(v) && pd in v.spaces && i < KERNEL_PD && j < ENTRIES
    ensures var e, page := Pte(v.mem, pd, i, j), PageAt(v.mem, pd, i, j);
      && (page.Some? <==> e.present) && (e.cow ==> e.present && !e.writable)
      && (e.present ==> Pde(v.mem, pd, i).writable && (page.value.writable <==> e.writable || e.cow))
      && (e.present ==> (page.value.user <==> Pde(v.mem, pd, i).user && e.user))
  {
    var e := Pte(v.mem, pd, i, j);
    assert Pde(v.mem, pd, i).present ==> Pde(v.mem, pd, i).writable;
    if e.present { assert UserMaps(v.mem, pd, i, j, e.frame); }
  }

  /** Stores leave the directory of the kernel alone, and so do copies. */
  lemma CowFacts(v: Vm, pd: nat, i: nat, j: nat)
    requires Inv(v) && pd in v.spaces && i < KERNEL_PD && j < ENTRIES && Pte(v.mem, pd, i, j).cow
    requires CanCopy(v, Pte(v.mem, pd, i, j).frame)
    ensures var v' := CowStep(v, pd, i, j);
      && Inv(v') && ViewsSame(v.spaces, v.mem, v'.mem) && CopyTaken(v, v', true) && KernelSame(v.mem, v'.mem, v.kernel)
      && DirsSame(v.spaces, v.mem, v'.mem)
      && v'.spaces == v.spaces && Pte(v'.mem, pd, i, j).present && Pte(v'.mem, pd, i, j).writable
  {
    hide Inv;
    CowStepSound(v, pd, i, j);
    CowBounds(v, pd, i, j);
    var f, v' := Pte(v.mem, pd, i, j).frame, CowStep(v, pd, i, j);
    MappedOnce(v, pd, i, j, f);
    assert v.refs[f] >= 1;
    var g := FirstFree(v.bits);
    FreeUnmapped(v, g);
    CowCopies(v, pd, i, j);
    KernelPdes(v, pd, i, j, g, v'.mem);
  }

  lemma MappedOnce(v: Vm, pd: nat, i: nat, j: nat, f: nat)
    requires Inv(v) && pd in v.spaces && UserMaps(v.mem, pd, i, j, f)
    ensures f < |v.refs| && v.refs[f] >= 1
  {
    assert MapsIn(v.mem, pd, f) && pd in Sharers(v, f);
    SubsetSize({pd}, Sharers(v, f));
  }

  lemma KernelPdes(v: Vm, pd: nat, i: nat, j: nat, g: nat, mem': Memory)
    requires Inv(v) && pd in v.spaces && i < KERNEL_PD && j < ENTRIES && CowReady(v, pd, i, j) && g !in v.role
    requires g < |v.mem|
    requires mem' == Copied(v, Pde(v.mem, pd, i).frame, j, Pte(v.mem, pd, i, j)).mem && g == FirstFree(v.bits)
    ensures KernelSame(v.mem, mem', v.kernel) && DirsSame(v.spaces, v.mem, mem')
  {
    assert v.role[Pde(v.mem, pd, i).frame] == Table(pd, i) && v.role[v.kernel] == Directory;
    forall q | q in v.spaces ensures PdesSame(v.mem, mem', q) { assert v.role[q] == Directory; }
  }

  /** The page fault of a copy-on-write page. */
  method Fault(m: Machine, pd: nat, i: nat, j: nat)
    requires m.Ok() && pd in m.spaces && i < KERNEL_PD && j < ENTRIES && Pte(m.mem, pd, i, j).cow
    requires CanCopy(m.V(), Pte(m.mem, pd, i, j).frame)
    modifies m`mem, m.pmm
    ensures m.Ok() && ViewsSame(m.spaces, old(m.mem), m.mem) && CopyTaken(old(m.V()), m.V(), true)
    ensures KernelSame(old(m.mem), m.mem, m.kernel) && DirsSame(m.spaces, old(m.mem), m.mem)
    ensures Pte(m.mem, pd, i, j).present && Pte(m.mem, pd, i, j).writable
  {
    hide Inv, CowStep, CanCopy, ViewsSame, KernelSame, CopyTaken, DirsSame;
    CowFacts(m.V(), pd, i, j);
    var va := i * LARGE + j * PAGE;
    assert PdIndex(va) == i && PtIndex(va) == j;
    var resolved := m.HandleCow(pd, va);
  }

  lemma StorePdes(v: Vm, pd: nat, i: nat, j: nat, k: nat, w: Word)
    requires Inv(v) && pd in v.spaces && i < KERNEL_PD && j < ENTRIES && k < ENTRIES && Pte(v.mem, pd, i, j).present
    ensures var f := Pte(v.mem, pd, i, j).frame;
      && f < |v.mem| && |v.mem[f]| == ENTRIES && KernelSame(v.mem, SetCell(v.mem, f, k, w), v.kernel)
      && DirsSame(v.spaces, v.mem, SetCell(v.mem, f, k, w))
  {
    assert UserMaps(v.mem, pd, i, j, Pte(v.mem, pd, i, j).frame) && v.kernel in v.role;
    forall q | q in v.spaces
      ensures PdesSame(v.mem, SetCell(v.mem, Pte(v.mem, pd, i, j).frame, k, w), q) { assert q in v.role; }
  }

  lemma StoreKeeps(v: Vm, v1: Vm, v2: Vm)
    requires KernelSame(v.mem, v1.mem, v.kernel) && KernelSame(v1.mem, v2.mem, v.kernel)
    requires DirsSame(v.spaces, v.mem, v1.mem) && DirsSame(v.spaces, v1.mem, v2.mem)
    ensures KernelSame(v.mem, v2.mem, v.kernel) && DirsSame(v.spaces, v.mem, v2.mem)
  {
  }

  /** What the processor lets a user program do with a page. */
  predicate Allowed(d: Word, w: Word, write: bool) {
    w.present && d.user && w.user && (write ==> d.writable && w.writable)
  }

  /** An access to a copy-on-write page that faults. */
  predicate Faults(mem: Memory, pd: nat, i: nat, j: nat, write: bool) {
    Pte(mem, pd, i, j).cow && (write || !(Pde(mem, pd, i).user && Pte(mem, pd, i, j).user))
  }

  /** An access by a user program: a fault on a copy-on-write page is resolved and the access tried
      again. It succeeds exactly if the page is there for user programs and, for a store, was writable
      before any fork. */
  method Access(m: Machine, pd: nat, i: nat, j: nat, write: bool) returns (ok: bool)
    requires m.Ok() && pd in m.spaces && i < KERNEL_PD && j < ENTRIES
    requires Faults(m.mem, pd, i, j, write) ==> CanCopy(m.V(), Pte(m.mem, pd, i, j).frame)
    modifies m`mem, m.pmm
    ensures m.Ok() && ViewsSame(m.spaces, old(m.mem), m.mem)
    ensures ok <==> var p := PageAt(old(m.mem), pd, i, j); p.Some? && p.value.user && (write ==> p.value.writable)
    ensures ok ==> Pte(m.mem, pd, i, j).present && (write ==> Pte(m.mem, pd, i, j).writable)
    ensures if Faults(old(m.mem), pd, i, j, write) then CopyTaken(old(m.V()), m.V(), true) else m.V() == old(m.V())
    ensures KernelSame(old(m.mem), m.mem, m.kernel) && DirsSame(m.spaces, old(m.mem), m.mem)
  {
    hide Inv, CanCopy, KernelSame, CopyTaken, DirsSame, PageAt;
    ghost var v := m.V();
    EntryView(v, pd, i, j);
    NothingDone(v);
    ok := Allowed(Pde(m.mem, pd, i), Pte(m.mem, pd, i, j), write);
    if !ok && Pte(m.mem, pd, i, j).cow {
      Fault(m, pd, i, j);
      EntryView(m.V(), pd, i, j);
      ok := Allowed(Pde(m.mem, pd, i), Pte(m.mem, pd, i, j), write);
    }
  }

  /** A store by a running program: a copy-on-write fault is resolved and the store retried. */
  method Store(m: Machine, pd: nat, i: nat, j: nat, k: nat, w: Word) returns (ok: bool)
    requires m.Ok() && pd in m.spaces && i < KERNEL_PD && j < ENTRIES && k < ENTRIES
    requires Pte(m.mem, pd, i, j).cow ==> CanCopy(m.V(), Pte(m.mem, pd, i, j).frame)
    modifies m`mem, m.pmm
    ensures m.Ok()
    ensures ok <==> var p := PageAt(old(m.mem), pd, i, j); p.Some? && p.value.user && p.value.writable
    ensures if ok then Stored(m.spaces, old(m.mem), m.mem, pd, i, j, k, w) else ViewsSame(m.spaces, old(m.mem), m.mem)
    ensures CopyTaken(old(m.V()), m.V(), Pte(old(m.mem), pd, i, j).cow)
    ensures KernelSame(old(m.mem), m.mem, m.kernel) && DirsSame(m.spaces, old(m.mem), m.mem)
  {
    hide Inv, Stored, ViewsSame, CanCopy, KernelSame, DirsSame, PageAt;
    ghost var v := m.V();
    ok := Access(m, pd, i, j, true);
    if !ok { return; }
    ghost var v1 := m.V();
    StoreSeen(v1, pd, i, j, k, w);
    StorePdes(v1, pd, i, j, k, w);
    m.mem := SetCell(m.mem, Pte(m.mem, pd, i, j).frame, k, w);
    StoredAfterCopy(m.spaces, v.mem, v1.mem, m.mem, pd, i, j, k, w);
    StoreKeeps(v, v1, m.V());
  }

  /** A mapping made in the kernel half, through any space, keeps the invariant: no user page is
      affected, and every space sees the new mapping. */
  lemma KernelMappedInv(v: Vm, v': Vm, pd: nat, lo: nat, hi: nat, frame: nat, writable: bool, user: bool)
    requires Inv(v) && Mapped(v, v', pd, lo, hi, frame, writable, user) && lo >= KERNEL_PAGE
    ensures Inv(v') && UserSame(v.spaces, v.mem, v'.mem)
  {
    assert UserSame(v.spaces, v.mem, v'.mem);
    assert forall f :: f in v'.role && f !in v.role ==> 0 <= f < |v.mem| && !v.bits[f];
    hide Mapped;
    UserSameInv(v, v');
  }

  lemma KernelUnmappedInv(v: Vm, v': Vm, pd: nat, lo: nat, hi: nat)
    requires Inv(v) && Unmapped(v, v', pd, lo, hi) && lo >= KERNEL_PAGE
    ensures Inv(v') && UserSame(v.spaces, v.mem, v'.mem)
  {
    assert UserSame(v.spaces, v.mem, v'.mem);
    assert forall f :: f in v.role ==> f in v'.role;
    hide Unmapped;
    UserSameInv(v, v');
  }

  /** Rows KERNEL_PD..n of the kernel's directory have tables. */
  ghost predicate Preallocated(v: Vm, n: nat) {
    forall a: nat :: KERNEL_PD <= a < n && a < ENTRIES ==> Pde(v.mem, v.kernel, a).present
  }

  lemma PreallocStep(v: Vm, g: nat, i: nat)
    requires Base(v) && v.spaces == {v.kernel} && EmptyUser(v.mem, v.kernel) && Preallocated(v, i)
    requires KERNEL_PD <= i < ENTRIES
    requires !Pde(v.mem, v.kernel, i).present && 1 <= g < |v.mem| && !v.bits[g]
    ensures v.kernel < |v.mem|
    ensures var v' := WithTable(v, v.kernel, i, g, false);
      Base(v') && EmptyUser(v'.mem, v'.kernel) && Preallocated(v', i + 1) && v'.spaces == v.spaces
  {
    WithTableSame(v, v.kernel, i, g, false);
    WithTableBase(v, v.kernel, i, g, false);
    hide Base;
  }

  /** The first frames are mapped at KERNEL_BASE, up to page `hi`. */
  ghost predicate DirectMap(v: Vm, v': Vm, hi: nat) {
    Mapped(v, v', v.kernel, KERNEL_PAGE, hi, 0, true, false)
  }

  /** The body of hal_vm_prealloc_kernel_tables. */
  method PreallocRow(m: Machine, i: nat, ghost v: Vm, ghost hi: nat) returns (ok: bool)
    requires m.pmm.Valid() && Base(m.V()) && m.spaces == {m.kernel} && EmptyUser(m.mem, m.kernel)
    requires Preallocated(m.V(), i)
    requires KERNEL_PD <= i < ENTRIES && DirectMap(v, m.V(), hi) && m.kernel in v.spaces && v.kernel == m.kernel
    modifies m`mem, m`role, m.pmm
    ensures m.pmm.Valid() && Base(m.V()) && EmptyUser(m.mem, m.kernel) && DirectMap(v, m.V(), hi)
    ensures ok <==> old(Pde(m.mem, m.kernel, i).present || FirstFree(m.pmm.bits) != 0)
    ensures ok ==> Preallocated(m.V(), i + 1)
    ensures old(FirstFree(m.pmm.bits)) == 0 ==> m.V() == old(m.V())
    ensures ok ==> RowsMade(old(m.V()), m.V(), m.kernel, if old(Pde(m.mem, m.kernel, i).present) then {} else {i}, 0)
  {
    hide Base, EmptyUser, Mapped, RowsMade;
    ghost var v1 := m.V();
    RowsNone(v1, m.kernel, 0);
    var t;
    ok, t := GetOrCreateTable(m, m.kernel, i, false);
    if ok && !Pde(v1.mem, v1.kernel, i).present {
      BaseSized(v1);
      WithTableRows(v1, m.kernel, i, false);
      PreallocStep(v1, FirstFree(v1.bits), i);
      MappedTable(v, v1, m.kernel, KERNEL_PAGE, hi, 0, true, false, i, FirstFree(v1.bits));
    }
  }

  lemma BaseSized(v: Vm)
    requires Base(v)
    ensures |v.mem| == |v.bits|
  {
  }

  /** A machine whose only space is the kernel's, with all kernel tables and no user page. */
  lemma BootInv(v: Vm)
    requires Base(v) && v.spaces == {v.kernel} && EmptyUser(v.mem, v.kernel) && Preallocated(v, ENTRIES)
    ensures Inv(v)
  {
    assert KernelHalf(v);
    assert forall a: nat, b: nat, f: nat :: !UserMaps(v.mem, v.kernel, a, b, f);
    forall f: nat ensures Sharers(v, f) == {} {
      forall q | q in v.spaces ensures !MapsIn(v.mem, q, f) {}
    }
    hide Base;
  }

  /** kernel_vmspace_create and hal_vm_prealloc_kernel_tables: an empty kernel directory, the first
      `frames` frames mapped at KERNEL_BASE, then every kernel table. The result of the mapping
      is not looked at, but if it ran out of frames so does the preallocation, and the kernel
      does not start. It starts exactly if there are frames for the directory and its tables. */
  method Boot(pmm: FrameAllocator, mem: Memory, frames: nat) returns (ok: bool, m: Machine)
    requires pmm.Valid() && |mem| == |pmm.bits| && (forall f :: 0 <= f < |mem| ==> |mem[f]| == ENTRIES)
    requires frames <= 0x2_0000
    modifies pmm
    ensures m.pmm == pmm && fresh(m)
    ensures ok <==> |FreeSet(old(pmm.bits))| >= 1 + (ENTRIES - KERNEL_PD)
    ensures ok ==> m.Ok() && m.spaces == {m.kernel} && EmptyUser(m.mem, m.kernel)
    ensures ok ==> forall va :: KERNEL_BASE <= va < KERNEL_BASE + frames * PAGE ==>
      VirtToPhys(m.mem, m.kernel, va) == va - KERNEL_BASE
    ensures ok ==> forall p: nat :: KERNEL_PAGE <= p < KERNEL_PAGE + frames ==>
      KernelWord(m.mem, m.kernel, p / ENTRIES, p % ENTRIES) == Leaf(p - KERNEL_PAGE, true, false)
  {
    hide Base, EmptyUser, DirectMap, Inv, Mapped, RowsMade, MissingRows, Affords, KernelWord;
    ghost var bits := pmm.bits;
    var addr := pmm.FrameAlloc();
    var k := addr / PAGE;
    if addr == 0 {
      assert FreeSet(bits) == {};
      m := new Machine(pmm, mem, 0, map[]);
      return false, m;
    }
    m := new Machine(pmm, mem[k := seq(ENTRIES, _ => ZERO)], k, map[k := Directory]);
    BootBase(m.V());
    assert FreeSet(bits) == FreeSet(m.pmm.bits) + {k};
    ghost var v := m.V();
    var mapped, hi := MapRange(m, k, 0, KERNEL_PAGE, frames, true, false);
    StillEmpty(v, m.V(), hi);
    BootFrames(v, m.V(), hi);
    ok := Prealloc(m, v, hi, mapped);
    if ok {
      DirectBytes(v, m.V(), hi);
      DirectRights(v, m.V(), hi);
    }
  }

  ghost function Interval(lo: nat, hi: nat): (s: set<nat>)
    requires lo <= hi
    ensures |s| == hi - lo && forall a :: a in s <==> lo <= a < hi
  {
    if lo == hi then {} else Interval(lo, hi - 1) + {hi - 1}
  }

  /** An empty kernel directory needs all its kernel tables, whichever of them the mapping made. */
  lemma BootFrames(v: Vm, v1: Vm, hi: nat)
    requires v.kernel < |v.mem| && v.mem[v.kernel] == seq(ENTRIES, _ => ZERO) && v1.kernel == v.kernel
    requires KERNEL_PAGE <= hi <= PAGES
    requires RowsMade(v, v1, v.kernel, MissingRows(v.mem, v.kernel, KERNEL_PAGE, hi), 0)
    ensures Affords(v1, v.kernel, KERNEL_PAGE, PAGES, 0) <==> |FreeSet(v.bits)| >= ENTRIES - KERNEL_PD
  {
    hide FreeSet, Interval;
    var made, rest := MissingRows(v.mem, v.kernel, KERNEL_PAGE, hi), MissingRows(v1.mem, v.kernel, KERNEL_PAGE, PAGES);
    forall a: nat | a < ENTRIES ensures !Pde(v.mem, v.kernel, a).present { }
    assert made + rest == Interval(KERNEL_PD, ENTRIES) && made !! rest;
  }

  /** hal_vm_prealloc_kernel_tables. */
  method Prealloc(m: Machine, ghost v: Vm, ghost hi: nat, ghost mapped: bool) returns (ok: bool)
    requires m.pmm.Valid() && Base(m.V()) && m.spaces == {m.kernel} && EmptyUser(m.mem, m.kernel)
    requires DirectMap(v, m.V(), hi) && m.kernel in v.spaces && v.kernel == m.kernel && KERNEL_PAGE <= hi < PAGES
    requires !mapped ==> FirstFree(m.pmm.bits) == 0 && !Pde(m.mem, m.kernel, hi / ENTRIES).present
    modifies m`mem, m`role, m.pmm
    ensures m.pmm.Valid() && (ok ==> m.Ok() && EmptyUser(m.mem, m.kernel) && DirectMap(v, m.V(), hi) && mapped)
    ensures ok <==> Affords(old(m.V()), m.kernel, KERNEL_PAGE, PAGES, 0)
  {
    hide Base, EmptyUser, DirectMap, Inv, RowsMade, MissingRows, FreeSet, Affords;
    var i := KERNEL_PD;
    ghost var v0 := m.V();
    RowsNone(v0, m.kernel, KERNEL_PAGE);
    while i < ENTRIES
      invariant KERNEL_PD <= i <= ENTRIES && m.pmm.Valid() && Base(m.V()) && m.spaces == {m.kernel}
      invariant EmptyUser(m.mem, m.kernel) && Preallocated(m.V(), i) && DirectMap(v, m.V(), hi)
      invariant !mapped ==>
        i <= hi / ENTRIES && FirstFree(m.pmm.bits) == 0 && !Pde(m.mem, m.kernel, hi / ENTRIES).present
      invariant RowsMade(v0, m.V(), m.kernel, MissingRows(v0.mem, m.kernel, KERNEL_PAGE, i * ENTRIES), 0)
    {
      ghost var v1 := m.V();
      ok := PreallocRow(m, i, v, hi);
      RowsNext(v0, v1, m.kernel, KERNEL_PAGE, i * ENTRIES, (i + 1) * ENTRIES, 0);
      if !ok {
        NotAfforded(v0, v1, m.kernel, KERNEL_PAGE, i * ENTRIES, (i + 1) * ENTRIES, PAGES);
        return false;
      }
      RowsJoined(v0, v1, m.V(), m.kernel, MissingRows(v0.mem, m.kernel, KERNEL_PAGE, i * ENTRIES), i);
      i := i + 1;
    }
    Afforded(v0, m.V(), m.kernel, KERNEL_PAGE, PAGES);
    BootInv(m.V());
    return true;
  }

  lemma DirectBytes(v: Vm, v': Vm, hi: nat)
    requires DirectMap(v, v', hi) && v.kernel in v.spaces && hi <= PAGES
    ensures forall va :: KERNEL_BASE <= va < hi * PAGE ==> VirtToPhys(v'.mem, v.kernel, va) == va - KERNEL_BASE
  {
    forall va | KERNEL_BASE <= va < hi * PAGE ensures VirtToPhys(v'.mem, v.kernel, va) == va - KERNEL_BASE {
      MappedBytes(v, v', v.kernel, KERNEL_PAGE, hi, 0, true, false, v.kernel, va);
    }
  }

  /** The window is for the kernel to read and write, and for nobody else. */
  lemma DirectRights(v: Vm, v': Vm, hi: nat)
    requires DirectMap(v, v', hi) && v.kernel in v.spaces && hi <= PAGES
    ensures forall p: nat :: KERNEL_PAGE <= p < hi ==>
      KernelWord(v'.mem, v.kernel, p / ENTRIES, p % ENTRIES) == Leaf(p - KERNEL_PAGE, true, false)
  {
    hide TablesTaken, KernelHalf;
    forall p: nat | KERNEL_PAGE <= p < hi
      ensures KernelWord(v'.mem, v.kernel, p / ENTRIES, p % ENTRIES) == Leaf(p - KERNEL_PAGE, true, false) {
      assert Touches(v.kernel, p / ENTRIES, p % ENTRIES, v.kernel, KERNEL_PAGE, hi);
      assert Pde(v'.mem, v.kernel, p / ENTRIES).present;
    }
  }

  lemma BootBase(v: Vm)
    requires |v.mem| == |v.bits| == |v.refs| <= 0x10_0000 && (forall f :: 0 <= f < |v.mem| ==> |v.mem[f]| == ENTRIES)
    requires v.spaces == {v.kernel} && v.role == map[v.kernel := Directory] && 1 <= v.kernel < |v.mem|
    requires v.bits[v.kernel] && v.refs[v.kernel] == 1 && v.mem[v.kernel] == seq(ENTRIES, _ => ZERO)
    ensures Base(v) && EmptyUser(v.mem, v.kernel)
  {
  }

  lemma StillEmpty(v: Vm, v': Vm, hi: nat)
    requires Mapped(v, v', v.kernel, KERNEL_PAGE, hi, 0, true, false)
    requires v.kernel in v.spaces && EmptyUser(v.mem, v.kernel)
    ensures EmptyUser(v'.mem, v'.kernel) && Base(v') && v'.spaces == v.spaces && DirectMap(v, v', hi)
  {
  }
}
