/** What fork does to memory: marking a space copy-on-write and copying its tables. */
module VmmFork {
  import opened Common
  import opened PteBits
  import opened PageTables
  import opened Pmm
  import opened Bitmap
  import opened Vmm

  /** An entry after the parent was marked. */
  function CowWord(w: Word): Word {
    if w.present && w.writable then w.(cow := true, writable := false) else w
  }

  /** (a, b) comes before (i, j) in the order of the two loops. */
  predicate Done(a: nat, b: nat, i: nat, j: nat) {
    a < i || (a == i && b < j)
  }

  ghost predicate MapsUpTo(mem: Memory, pd: nat, f: nat, i: nat, j: nat) {
    exists a: nat, b: nat :: Done(a, b, i, j) && UserMaps(mem, pd, a, b, f)
  }

  /** hal_vmm_set_cow has processed the entries of `pd` before (i, j). */
  ghost predicate Marked(v: Vm, v': Vm, pd: nat, i: nat, j: nat)
    requires |v.mem| == |v.refs|
  {
    && v'.spaces == v.spaces && v'.kernel == v.kernel && v'.role == v.role && v'.bits == v.bits
    && |v'.mem| == |v.mem| && |v'.refs| == |v.refs|
    && (forall f :: 0 <= f < |v'.mem| ==> |v'.mem[f]| == ENTRIES && (f !in v.role ==> v'.mem[f] == v.mem[f]))
    && (forall q, a: nat :: q in v.spaces && a < ENTRIES ==> Pde(v'.mem, q, a) == Pde(v.mem, q, a))
    && (forall q, a: nat, b: nat :: q in v.spaces && a < ENTRIES ==>
          Pte(v'.mem, q, a, b) ==
            if q == pd && a < KERNEL_PD && Done(a, b, i, j) then CowWord(Pte(v.mem, q, a, b)) else Pte(v.mem, q, a, b))
    && (forall f :: 0 <= f < |v.refs| ==> v'.refs[f] == v.refs[f] + if MapsUpTo(v.mem, pd, f, i, j) then 1 else 0)
  }

  lemma MarkedStart(v: Vm, pd: nat)
    requires Inv(v)
    ensures Marked(v, v, pd, 0, 0)
  {
  }

  lemma RowEnd(v: Vm, v': Vm, pd: nat, i: nat)
    requires Inv(v) && Marked(v, v', pd, i, ENTRIES)
    ensures Marked(v, v', pd, i + 1, 0)
  {
    forall f | 0 <= f < |v.refs| ensures MapsUpTo(v.mem, pd, f, i, ENTRIES) <==> MapsUpTo(v.mem, pd, f, i + 1, 0) {
      if MapsUpTo(v.mem, pd, f, i + 1, 0) {
        var a: nat, b: nat :| Done(a, b, i + 1, 0) && UserMaps(v.mem, pd, a, b, f);
        assert Done(a, b, i, ENTRIES);
      }
      if MapsUpTo(v.mem, pd, f, i, ENTRIES) {
        var a: nat, b: nat :| Done(a, b, i, ENTRIES) && UserMaps(v.mem, pd, a, b, f);
        assert Done(a, b, i + 1, 0);
      }
    }
  }

  lemma RowSkipped(v: Vm, v': Vm, pd: nat, i: nat)
    requires Inv(v) && pd in v.spaces && i < KERNEL_PD && Marked(v, v', pd, i, 0) && !Pde(v.mem, pd, i).present
    ensures Marked(v, v', pd, i + 1, 0)
  {
    forall f | 0 <= f < |v.refs| ensures MapsUpTo(v.mem, pd, f, i, 0) <==> MapsUpTo(v.mem, pd, f, i + 1, 0) {
      MapsUpToNext(v, pd, f, i, 0, i + 1, 0);
    }
  }

  /** No entry between the two positions maps `f`. */
  lemma MapsUpToNext(v: Vm, pd: nat, f: nat, i: nat, j: nat, i': nat, j': nat)
    requires i < i' || (i == i' && j <= j')
    requires forall a: nat, b: nat :: Done(a, b, i', j') && !Done(a, b, i, j) ==> !UserMaps(v.mem, pd, a, b, f)
    ensures MapsUpTo(v.mem, pd, f, i, j) <==> MapsUpTo(v.mem, pd, f, i', j')
  {
    if MapsUpTo(v.mem, pd, f, i, j) {
      var a: nat, b: nat :| Done(a, b, i, j) && UserMaps(v.mem, pd, a, b, f);
      assert Done(a, b, i', j');
    }
  }

  /** The effect of processing entry (i, j) on the counts. */
  lemma CountStep(v: Vm, pd: nat, i: nat, j: nat, f: nat)
    requires Inv(v) && pd in v.spaces && i < KERNEL_PD && j < ENTRIES
    ensures MapsUpTo(v.mem, pd, f, i, j + 1) <==> MapsUpTo(v.mem, pd, f, i, j) || UserMaps(v.mem, pd, i, j, f)
    ensures UserMaps(v.mem, pd, i, j, f) ==> !MapsUpTo(v.mem, pd, f, i, j)
  {
    if UserMaps(v.mem, pd, i, j, f) {
      assert Done(i, j, i, j + 1);
    }
    if MapsUpTo(v.mem, pd, f, i, j) {
      var a: nat, b: nat :| Done(a, b, i, j) && UserMaps(v.mem, pd, a, b, f);
      assert Done(a, b, i, j + 1);
    }
  }

  lemma MarkedTabled(v: Vm, v': Vm, pd: nat, i: nat, j: nat)
    requires Inv(v) && pd in v.spaces && Marked(v, v', pd, i, j)
    ensures Shape(v') && Tabled(v')
  {
    forall f | f in v.role ensures !MapsUpTo(v.mem, pd, f, i, j) {}
  }

  lemma MarkAbsent(v: Vm, v': Vm, pd: nat, i: nat, j: nat)
    requires Inv(v) && pd in v.spaces && i < KERNEL_PD && j < ENTRIES && Marked(v, v', pd, i, j)
    requires !Pte(v.mem, pd, i, j).present
    ensures Marked(v, v', pd, i, j + 1)
  {
    forall f | 0 <= f < |v.refs| ensures MapsUpTo(v.mem, pd, f, i, j) <==> MapsUpTo(v.mem, pd, f, i, j + 1) {
      CountStep(v, pd, i, j, f);
    }
  }

  lemma MarkPresent(v: Vm, v1: Vm, v': Vm, pd: nat, i: nat, j: nat, t: nat, w: Word)
    requires Inv(v) && pd in v.spaces && i < KERNEL_PD && j < ENTRIES && Marked(v, v1, pd, i, j)
    requires Pde(v1.mem, pd, i).present && t == Pde(v1.mem, pd, i).frame < |v1.mem| && w == Pte(v1.mem, pd, i, j)
    requires w.present
    requires w.frame < |v1.refs|
    requires v' == v1.(mem := SetCell(v1.mem, t, j, CowWord(w)), refs := v1.refs[w.frame := v1.refs[w.frame] + 1])
    ensures Marked(v, v', pd, i, j + 1)
  {
    MarkedTabled(v, v1, pd, i, j);
    SetPte(v1, pd, i, j, CowWord(w));
    assert t in v.role;
    forall f: nat ensures MapsUpTo(v.mem, pd, f, i, j + 1) <==>
      MapsUpTo(v.mem, pd, f, i, j) || UserMaps(v.mem, pd, i, j, f)
             ensures UserMaps(v.mem, pd, i, j, f) ==> !MapsUpTo(v.mem, pd, f, i, j)
    {
      CountStep(v, pd, i, j, f);
    }
  }

  /** Entry `j` of table `t`, if present, maps a frame that has a count. */
  ghost predicate EntryReady(v: Vm, t: nat, j: nat) {
    && |v.mem| == |v.refs| && t < |v.mem| && j < |v.mem[t]|
    && (v.mem[t][j].present ==> v.mem[t][j].frame < |v.refs|)
  }

  /** The counts are 16 bits of the numbers of references `rs`. */
  ghost predicate Wraps(refs: seq<nat>, rs: seq<nat>) {
    |refs| == |rs| && forall f :: 0 <= f < |refs| ==> refs[f] == rs[f] % REFS
  }

  /** The machine with the numbers of references in place of the counts. */
  ghost function Unwrapped(m: Machine, rs: seq<nat>): Vm
    reads m, m.pmm
  {
    m.V().(refs := rs)
  }

  /** The body of the inner loop of hal_vmm_set_cow. */
  ghost function EntryMarked(v: Vm, t: nat, j: nat): Vm
    requires EntryReady(v, t, j)
  {
    var w := v.mem[t][j];
    if !w.present then v
    else v.(mem := SetCell(v.mem, t, j, CowWord(w)), refs := v.refs[w.frame := v.refs[w.frame] + 1])
  }

  lemma UnchangedCell(mem: Memory, t: nat, j: nat)
    requires t < |mem| && j < |mem[t]|
    ensures SetCell(mem, t, j, mem[t][j]) == mem
  {
    assert mem[t][j := mem[t][j]] == mem[t];
  }

  method MarkEntry(m: Machine, t: nat, j: nat, ghost rs: seq<nat>) returns (ghost rs': seq<nat>)
    requires m.pmm.Valid() && Wraps(m.pmm.refs, rs) && EntryReady(Unwrapped(m, rs), t, j)
    modifies m`mem, m.pmm`refs
    ensures m.pmm.Valid() && Wraps(m.pmm.refs, rs') && Unwrapped(m, rs') == EntryMarked(old(Unwrapped(m, rs)), t, j)
  {
    rs' := rs;
    var w := m.mem[t][j];
    if !w.present { return; }
    UnchangedCell(m.mem, t, j);
    if w.writable { m.mem := SetCell(m.mem, t, j, MarkCow(w)); }
    m.pmm.RefInc(w.frame * PAGE);
    rs' := rs[w.frame := rs[w.frame] + 1];
    WrapsNext(old(m.pmm.refs), rs, w.frame);
  }

  lemma WrapsNext(refs: seq<nat>, rs: seq<nat>, f: nat)
    requires Wraps(refs, rs) && f < |rs|
    ensures Wraps(refs[f := (refs[f] + 1) % REFS], rs[f := rs[f] + 1])
  {
  }

  /** No count that marking `pd` raises is at its maximum. */
  ghost predicate RefsLow(v: Vm, pd: nat) {
    forall f :: 0 <= f < |v.refs| && MapsIn(v.mem, pd, f) ==> v.refs[f] < REFS - 1
  }

  lemma MarkStep(v: Vm, v1: Vm, pd: nat, i: nat, j: nat, t: nat)
    requires Inv(v) && pd in v.spaces && i < KERNEL_PD && j < ENTRIES && Marked(v, v1, pd, i, j)
    requires Pde(v.mem, pd, i).present && t == Pde(v.mem, pd, i).frame
    ensures EntryReady(v1, t, j) && Marked(v, EntryMarked(v1, t, j), pd, i, j + 1)
  {
    assert t in v.role;
    var w := v1.mem[t][j];
    assert w == Pte(v1.mem, pd, i, j) == Pte(v.mem, pd, i, j);
    if w.present {
      assert UserMaps(v.mem, pd, i, j, w.frame);
      CountStep(v, pd, i, j, w.frame);
      MarkPresent(v, v1, EntryMarked(v1, t, j), pd, i, j, t, w);
    } else {
      MarkAbsent(v, v1, pd, i, j);
    }
  }

  method MarkOne(m: Machine, t: nat, j: nat, ghost v: Vm, ghost pd: nat, ghost i: nat, ghost rs: seq<nat>)
    returns (ghost rs': seq<nat>)
    requires m.pmm.Valid() && Wraps(m.pmm.refs, rs) && Inv(v) && pd in v.spaces && i < KERNEL_PD && j < ENTRIES
    requires Marked(v, Unwrapped(m, rs), pd, i, j) && Pde(v.mem, pd, i).present && t == Pde(v.mem, pd, i).frame
    modifies m`mem, m.pmm`refs
    ensures m.pmm.Valid() && Wraps(m.pmm.refs, rs') && Marked(v, Unwrapped(m, rs'), pd, i, j + 1)
  {
    MarkStep(v, Unwrapped(m, rs), pd, i, j, t);
    rs' := MarkEntry(m, t, j, rs);
  }

  /** The inner loop of hal_vmm_set_cow: one page table. */
  method MarkRow(m: Machine, t: nat, ghost v: Vm, ghost pd: nat, ghost i: nat, ghost rs: seq<nat>)
    returns (ghost rs': seq<nat>)
    requires m.pmm.Valid() && Wraps(m.pmm.refs, rs) && Inv(v) && pd in v.spaces && i < KERNEL_PD
    requires Marked(v, Unwrapped(m, rs), pd, i, 0)
    requires Pde(v.mem, pd, i).present && t == Pde(v.mem, pd, i).frame
    modifies m`mem, m.pmm`refs
    ensures m.pmm.Valid() && Wraps(m.pmm.refs, rs') && Marked(v, Unwrapped(m, rs'), pd, i + 1, 0)
  {
    hide Inv, Marked;
    Counts(v);
    var j := 0;
    rs' := rs;
    while j < ENTRIES
      invariant 0 <= j <= ENTRIES && m.pmm.Valid() && Wraps(m.pmm.refs, rs') && |v.mem| == |v.refs|
      invariant Marked(v, Unwrapped(m, rs'), pd, i, j)
    {
      rs' := MarkOne(m, t, j, v, pd, i, rs');
      j := j + 1;
    }
    RowEnd(v, Unwrapped(m, rs'), pd, i);
  }

  /** The body of the outer loop of hal_vmm_set_cow. */
  method MarkTable(m: Machine, pd: nat, i: nat, ghost v: Vm, ghost rs: seq<nat>) returns (ghost rs': seq<nat>)
    requires m.pmm.Valid() && Wraps(m.pmm.refs, rs) && Inv(v) && pd in v.spaces && i < KERNEL_PD
    requires Marked(v, Unwrapped(m, rs), pd, i, 0)
    modifies m`mem, m.pmm`refs
    ensures m.pmm.Valid() && Wraps(m.pmm.refs, rs') && Marked(v, Unwrapped(m, rs'), pd, i + 1, 0)
  {
    rs' := rs;
    var d := Cell(m.mem, pd, i);
    assert d == Pde(v.mem, pd, i);
    if d.present {
      rs' := MarkRow(m, d.frame, v, pd, i, rs);
    } else {
      RowSkipped(v, Unwrapped(m, rs), pd, i);
    }
  }

  /** hal_vmm_set_cow: every writable user page of the space becomes read-only copy-on-write,
      and every frame it maps gains one reference, of which the counts keep 16 bits. */
  method SetCow(m: Machine, pd: nat) returns (ghost rs: seq<nat>)
    requires m.Ok() && pd in m.spaces
    modifies m`mem, m.pmm`refs
    ensures m.pmm.Valid() && Wraps(m.pmm.refs, rs) && Marked(old(m.V()), Unwrapped(m, rs), pd, KERNEL_PD, 0)
  {
    ghost var v := m.V();
    MarkedStart(v, pd);
    hide Inv, Marked;
    var i := 0;
    rs := m.pmm.refs;
    assert Unwrapped(m, rs) == v;
    while i < KERNEL_PD
      invariant 0 <= i <= KERNEL_PD && m.pmm.Valid() && Wraps(m.pmm.refs, rs) && |v.mem| == |v.refs|
      invariant Marked(v, Unwrapped(m, rs), pd, i, 0)
    {
      rs := MarkTable(m, pd, i, v, rs);
      i := i + 1;
    }
  }

  lemma MarkedMaps(v: Vm, v': Vm, pd: nat)
    requires Inv(v) && pd in v.spaces && Marked(v, v', pd, KERNEL_PD, 0)
    ensures forall q, a: nat, b: nat, f: nat :: q in v.spaces ==>
      (UserMaps(v'.mem, q, a, b, f) <==> UserMaps(v.mem, q, a, b, f))
    ensures forall q, f: nat :: q in v.spaces ==> (MapsIn(v'.mem, q, f) <==> MapsIn(v.mem, q, f))
    ensures forall f: nat :: Sharers(v', f) == Sharers(v, f)
  {
    forall q, f: nat | q in v.spaces ensures MapsIn(v'.mem, q, f) <==> MapsIn(v.mem, q, f) {
      if MapsIn(v'.mem, q, f) {
        var a: nat, b: nat :| UserMaps(v'.mem, q, a, b, f);
        assert UserMaps(v.mem, q, a, b, f);
      }
      if MapsIn(v.mem, q, f) {
        var a: nat, b: nat :| UserMaps(v.mem, q, a, b, f);
        assert UserMaps(v'.mem, q, a, b, f);
      }
    }
    forall f: nat ensures Sharers(v', f) == Sharers(v, f) {}
  }

  /** Every frame a space maps has a reference to spare, and none of its pages is writable. */
  ghost predicate Shareable(v: Vm, pd: nat)
    requires |v.mem| == |v.refs|
  {
    && (forall f :: 0 <= f < |v.refs| && MapsIn(v.mem, pd, f) ==> |Sharers(v, f)| + 1 <= v.refs[f])
    && (forall a: nat, b: nat :: a < KERNEL_PD && b < ENTRIES ==>
      !(Pte(v.mem, pd, a, b).present && Pte(v.mem, pd, a, b).writable))
  }

  lemma MarkedInv(v: Vm, v': Vm, pd: nat)
    requires Inv(v) && pd in v.spaces && Marked(v, v', pd, KERNEL_PD, 0)
    ensures Inv(v') && Shareable(v', pd) && ViewsSame(v.spaces, v.mem, v'.mem)
  {
    MarkedMaps(v, v', pd);
    MarkedTabled(v, v', pd, KERNEL_PD, 0);
    MarkedExclusive(v, v', pd);
    MarkedCounted(v, v', pd);
    MarkedViews(v, v', pd);
  }

  lemma MarkedExclusive(v: Vm, v': Vm, pd: nat)
    requires Inv(v) && pd in v.spaces && Marked(v, v', pd, KERNEL_PD, 0)
    ensures Exclusive(v')
  {
    MarkedMaps(v, v', pd);
    forall q, a: nat, b: nat | q in v'.spaces && a < KERNEL_PD && b < ENTRIES
      ensures Pte(v'.mem, q, a, b).writable ==> Pte(v.mem, q, a, b).writable
      ensures Pte(v'.mem, q, a, b).cow ==> Pte(v'.mem, q, a, b).present && !Pte(v'.mem, q, a, b).writable
    {
      assert Pte(v'.mem, q, a, b) == Pte(v.mem, q, a, b) || Pte(v'.mem, q, a, b) == CowWord(Pte(v.mem, q, a, b));
    }
  }

  lemma MarkedCounted(v: Vm, v': Vm, pd: nat)
    requires Inv(v) && pd in v.spaces && Marked(v, v', pd, KERNEL_PD, 0)
    ensures Counted(v') && Shareable(v', pd)
  {
    MarkedMaps(v, v', pd);
    forall f | 0 <= f < |v.refs| && MapsIn(v'.mem, pd, f) ensures |Sharers(v', f)| + 1 <= v'.refs[f] {
      var a: nat, b: nat :| UserMaps(v.mem, pd, a, b, f);
      assert Done(a, b, KERNEL_PD, 0);
      assert MapsUpTo(v.mem, pd, f, KERNEL_PD, 0);
    }
    forall a: nat, b: nat | a < KERNEL_PD && b < ENTRIES
      ensures !(Pte(v'.mem, pd, a, b).present && Pte(v'.mem, pd, a, b).writable)
    {
      assert Done(a, b, KERNEL_PD, 0);
    }
  }

  lemma MarkedViews(v: Vm, v': Vm, pd: nat)
    requires Inv(v) && pd in v.spaces && Marked(v, v', pd, KERNEL_PD, 0)
    ensures ViewsSame(v.spaces, v.mem, v'.mem)
  {
    forall q, a: nat, b: nat | q in v.spaces && a < KERNEL_PD && b < ENTRIES
      ensures PageAt(v'.mem, q, a, b) == PageAt(v.mem, q, a, b)
    {
      var x := Pte(v.mem, q, a, b);
      if x.present { assert UserMaps(v.mem, q, a, b, x.frame); }
    }
  }

  /** While the tables of `src` are copied to the directory `dst`, which is no live space yet:
      the first `n` tables are done. */
  ghost predicate Copying(v: Vm, src: nat, dst: nat, n: nat)
    requires |v.mem| == |v.refs|
  {
    && src in v.spaces && dst !in v.spaces && dst in v.role && v.role[dst] == Directory
    && (forall a: nat :: a < KERNEL_PD ==> (Pde(v.mem, dst, a).present <==> a < n && Pde(v.mem, src, a).present))
    && (forall a: nat :: a < n && a < KERNEL_PD && Pde(v.mem, dst, a).present ==>
          && Pde(v.mem, dst, a).frame in v.role && v.role[Pde(v.mem, dst, a).frame] == Table(dst, a)
          && Pde(v.mem, dst, a) == Pde(v.mem, src, a).(frame := Pde(v.mem, dst, a).frame))
    && (forall a: nat, b: nat :: a < n && a < KERNEL_PD ==> Pte(v.mem, dst, a, b) == Pte(v.mem, src, a, b))
    && (forall a: nat :: KERNEL_PD <= a < ENTRIES ==> Pde(v.mem, dst, a) == Pde(v.mem, v.kernel, a))
  }

  /** The body of the copy loop for a table that is present: a frame is taken, filled with the
      parent's table and linked into the child's directory. */
  ghost function RowCopied(v: Vm, src: nat, dst: nat, i: nat, g: nat): Vm
    requires |v.bits| == |v.refs| == |v.mem| && g < |v.mem| && dst < |v.mem| && i < |v.mem[dst]|
    requires Pde(v.mem, src, i).frame < |v.mem|
    requires g != dst
  {
    var d := Pde(v.mem, src, i);
    v.(mem := SetCell(v.mem[g := v.mem[d.frame]], dst, i, d.(frame := g)),
       bits := v.bits[g := true], refs := v.refs[g := 1], role := v.role[g := Table(dst, i)])
  }

  /** The live spaces do not notice the copy. */
  lemma RowCopiedTables(v: Vm, v': Vm, src: nat, dst: nat, i: nat, g: nat)
    requires Inv(v) && Copying(v, src, dst, i) && i < KERNEL_PD && Pde(v.mem, src, i).present
    requires 1 <= g < |v.mem| && !v.bits[g] && g != dst && dst < |v.mem| && Pde(v.mem, src, i).frame < |v.mem|
    requires v' == RowCopied(v, src, dst, i, g)
    ensures TablesSame(v.spaces, v.mem, v'.mem)
    ensures forall f :: 0 <= f < |v.mem| && f != g && f != dst ==> v'.mem[f] == v.mem[f]
    ensures forall f :: 0 <= f < |v.mem| ==> |v'.mem[f]| == ENTRIES
  {
    assert g !in v.role;
    SetData(v, g, v.mem[Pde(v.mem, src, i).frame]);
    var mem1 := v.mem[g := v.mem[Pde(v.mem, src, i).frame]];
    forall q, a: nat | q in v.spaces && a < ENTRIES ensures Pde(v'.mem, q, a) == Pde(mem1, q, a) {
      assert q != dst;
    }
    forall q, a: nat, b: nat | q in v.spaces && a < ENTRIES ensures Pte(v'.mem, q, a, b) == Pte(mem1, q, a, b) {
      if Pde(v.mem, q, a).present { assert v.role[Pde(v.mem, q, a).frame] != Directory; }
    }
  }

  /** Changes that no live space notices keep the invariant. */
  lemma UnnoticedInv(v: Vm, v': Vm)
    requires Inv(v) && v'.spaces == v.spaces && v'.kernel == v.kernel && |v'.mem| == |v'.bits| == |v'.refs| == |v.mem|
    requires forall f :: 0 <= f < |v'.mem| ==> |v'.mem[f]| == ENTRIES
    requires TablesSame(v.spaces, v.mem, v'.mem)
    requires forall f :: f in v.role ==> f in v'.role && v'.role[f] == v.role[f]
    requires forall f :: f in v'.role ==> 1 <= f < |v.mem| && v'.bits[f] && v'.refs[f] == 1
    requires forall f :: f in v'.role && f !in v.role ==> 0 <= f < |v.mem| && !v.bits[f]
    requires forall f :: 0 <= f < |v.mem| && v.bits[f] ==> v'.bits[f] && v'.refs[f] == v.refs[f]
    ensures Inv(v')
    ensures forall q, f: nat :: q in v.spaces ==> (MapsIn(v'.mem, q, f) <==> MapsIn(v.mem, q, f))
    ensures forall f: nat :: Sharers(v', f) == Sharers(v, f)
  {
    UserSameMaps(v, v');
    UserSameInv(v, v');
  }

  /** What holds while tables are copied. */
  ghost predicate CopyInv(v: Vm, src: nat, dst: nat, n: nat) {
    Inv(v) && Copying(v, src, dst, n) && Shareable(v, src)
  }

  lemma RowAbsent(v: Vm, src: nat, dst: nat, i: nat)
    requires CopyInv(v, src, dst, i) && i < KERNEL_PD && !Pde(v.mem, src, i).present
    ensures CopyInv(v, src, dst, i + 1)
  {
  }

  lemma RowCopiedPtes(v: Vm, v': Vm, src: nat, dst: nat, i: nat, g: nat)
    requires CopyInv(v, src, dst, i) && i < KERNEL_PD && Pde(v.mem, src, i).present
    requires 1 <= g < |v.mem| && !v.bits[g] && g != dst && dst < |v.mem| && Pde(v.mem, src, i).frame < |v.mem|
    requires v' == RowCopied(v, src, dst, i, g)
    ensures Copying(v', src, dst, i + 1)
  {
    RowCopiedTables(v, v', src, dst, i, g);
    var t := Pde(v.mem, src, i).frame;
    assert g !in v.role && t in v.role && v.role[t] == Table(src, i);
    forall a: nat, b: nat | a < i + 1 && a < KERNEL_PD ensures Pte(v'.mem, dst, a, b) == Pte(v'.mem, src, a, b) {
      if a == i {
        assert v'.mem[g] == v.mem[t];
      } else if Pde(v.mem, dst, a).present {
        assert v.role[Pde(v.mem, dst, a).frame] == Table(dst, a);
        assert Pte(v'.mem, dst, a, b) == Pte(v.mem, dst, a, b);
      }
    }
    forall a: nat | KERNEL_PD <= a < ENTRIES ensures Pde(v'.mem, dst, a) == Pde(v'.mem, v'.kernel, a) {
      assert v.kernel in v.spaces;
    }
  }

  lemma RowCopiedInv(v: Vm, v': Vm, src: nat, dst: nat, i: nat, g: nat)
    requires CopyInv(v, src, dst, i) && i < KERNEL_PD && Pde(v.mem, src, i).present
    requires 1 <= g < |v.mem| && !v.bits[g] && g != dst && dst < |v.mem| && Pde(v.mem, src, i).frame < |v.mem|
    requires v' == RowCopied(v, src, dst, i, g)
    ensures CopyInv(v', src, dst, i + 1) && ViewsSame(v.spaces, v.mem, v'.mem)
  {
    RowCopiedTables(v, v', src, dst, i, g);
    UnnoticedInv(v, v');
    RowCopiedPtes(v, v', src, dst, i, g);
    forall f | 0 <= f < |v.refs| && MapsIn(v'.mem, src, f) ensures |Sharers(v', f)| + 1 <= v'.refs[f] {
      var a: nat, b: nat :| UserMaps(v.mem, src, a, b, f);
      assert v.bits[f];
    }
    UnnoticedViews(v, v', g, dst);
  }

  lemma UnnoticedViews(v: Vm, v': Vm, g: nat, dst: nat)
    requires Inv(v) && TablesSame(v.spaces, v.mem, v'.mem) && |v'.mem| == |v.mem|
    requires g < |v.mem| && !v.bits[g] && dst in v.role
    requires forall f :: 0 <= f < |v.mem| && f != g && f != dst ==> v'.mem[f] == v.mem[f]
    ensures ViewsSame(v.spaces, v.mem, v'.mem)
  {
    forall q, a: nat, b: nat | q in v.spaces && a < KERNEL_PD && b < ENTRIES
      ensures PageAt(v'.mem, q, a, b) == PageAt(v.mem, q, a, b)
    {
      var x := Pte(v.mem, q, a, b);
      if x.present { assert UserMaps(v.mem, q, a, b, x.frame); }
    }
  }

  /** Forgetting a space other than the kernel's. */
  lemma DropSpace(v: Vm, dst: nat)
    requires Inv(v) && dst != v.kernel
    ensures Inv(v.(spaces := v.spaces - {dst}))
  {
    var v' := v.(spaces := v.spaces - {dst});
    forall f | 0 <= f < |v.mem| ensures |Sharers(v', f)| <= v'.refs[f] {
      SubsetSize(Sharers(v', f), Sharers(v, f));
    }
  }

  lemma CopiedMaps(v: Vm, src: nat, dst: nat)
    requires CopyInv(v, src, dst, KERNEL_PD)
    ensures forall a: nat, b: nat, f: nat :: UserMaps(v.mem, dst, a, b, f) <==> UserMaps(v.mem, src, a, b, f)
    ensures forall f: nat :: MapsIn(v.mem, dst, f) <==> MapsIn(v.mem, src, f)
  {
    forall f: nat ensures MapsIn(v.mem, dst, f) <==> MapsIn(v.mem, src, f) {
      if MapsIn(v.mem, dst, f) {
        var a: nat, b: nat :| UserMaps(v.mem, dst, a, b, f);
        assert UserMaps(v.mem, src, a, b, f);
      }
      if MapsIn(v.mem, src, f) {
        var a: nat, b: nat :| UserMaps(v.mem, src, a, b, f);
        assert UserMaps(v.mem, dst, a, b, f);
      }
    }
  }

  lemma AddedSharers(v: Vm, v': Vm, src: nat, dst: nat, f: nat)
    requires v' == v.(spaces := v.spaces + {dst}) && dst !in v.spaces
    requires (MapsIn(v.mem, dst, f) <==> MapsIn(v.mem, src, f))
    ensures |Sharers(v', f)| == |Sharers(v, f)| + if MapsIn(v.mem, src, f) then 1 else 0
  {
    if MapsIn(v.mem, src, f) {
      assert Sharers(v', f) == Sharers(v, f) + {dst};
    } else {
      assert Sharers(v', f) == Sharers(v, f);
    }
  }

  lemma AddedCounted(v: Vm, v': Vm, src: nat, dst: nat)
    requires CopyInv(v, src, dst, KERNEL_PD) && v' == v.(spaces := v.spaces + {dst})
    ensures Counted(v')
  {
    CopiedMaps(v, src, dst);
    forall f | 0 <= f < |v.mem| ensures |Sharers(v', f)| <= v'.refs[f] {
      AddedSharers(v, v', src, dst, f);
    }
  }

  lemma AddedExclusive(v: Vm, v': Vm, src: nat, dst: nat)
    requires CopyInv(v, src, dst, KERNEL_PD) && v' == v.(spaces := v.spaces + {dst})
    ensures Exclusive(v') && DataOk(v')
  {
    CopiedMaps(v, src, dst);
    forall pd, i: nat, j: nat, f: nat, pd' |
        pd in v'.spaces && pd' in v'.spaces && UserMaps(v'.mem, pd, i, j, f) && Pte(v'.mem, pd, i, j).writable
          && MapsIn(v'.mem, pd', f)
      ensures pd' == pd
    {
      var p, p' := if pd == dst then src else pd, if pd' == dst then src else pd';
      assert UserMaps(v.mem, p, i, j, f) && MapsIn(v.mem, p', f);
      assert Pte(v.mem, p, i, j) == Pte(v'.mem, pd, i, j);
      assert p' == p && p != src;
    }
  }

  /** The child becomes a live space: it maps exactly what the parent maps. */
  lemma AddSpace(v: Vm, v': Vm, src: nat, dst: nat)
    requires CopyInv(v, src, dst, KERNEL_PD) && v' == v.(spaces := v.spaces + {dst})
    ensures Inv(v')
    ensures forall a: nat, b: nat :: a < KERNEL_PD ==> PageAt(v'.mem, dst, a, b) == PageAt(v.mem, src, a, b)
  {
    AddedCounted(v, v', src, dst);
    AddedExclusive(v, v', src, dst);
    AddedCore(v, v', src, dst);
    hide Shape, Tabled, KernelHalf, DataOk, Exclusive, Counted;
    forall a: nat, b: nat | a < KERNEL_PD ensures PageAt(v'.mem, dst, a, b) == PageAt(v.mem, src, a, b) {
      assert Pte(v.mem, dst, a, b) == Pte(v.mem, src, a, b);
    }
  }

  lemma AddedCore(v: Vm, v': Vm, src: nat, dst: nat)
    requires CopyInv(v, src, dst, KERNEL_PD) && v' == v.(spaces := v.spaces + {dst})
    ensures Shape(v') && Tabled(v') && KernelHalf(v') && DataOk(v')
  {
    CopiedMaps(v, src, dst);
    hide Exclusive, Counted;
  }

  /** The numbers of references after some frames were taken. */
  ghost predicate OnlyTaken(bits: seq<bool>, rs: seq<nat>, bits': seq<bool>, rs': seq<nat>) {
    && |bits| == |rs| == |bits'| == |rs'|
    && (forall f :: 0 <= f < |rs| ==> if bits[f] then bits'[f] && rs'[f] == rs[f] else rs'[f] == rs[f] || rs'[f] == 1)
  }

  /** What the live spaces keep while the child is built. */
  ghost predicate Unnoticed(v: Vm, v': Vm) {
    && v'.spaces == v.spaces && v'.kernel == v.kernel
    && TablesSame(v.spaces, v.mem, v'.mem) && ViewsSame(v.spaces, v.mem, v'.mem)
      && OnlyTaken(v.bits, v.refs, v'.bits, v'.refs)
  }

  lemma UnnoticedTrans(v: Vm, v1: Vm, v2: Vm)
    requires Unnoticed(v, v1) && Unnoticed(v1, v2)
    ensures Unnoticed(v, v2)
  {
  }

  lemma UnnoticedRefl(v: Vm)
    requires |v.bits| == |v.refs|
    ensures Unnoticed(v, v)
  {
  }

  /** Tables of `src` that remain to be copied. */
  ghost function ToCopy(mem: Memory, src: nat, i: nat): set<nat> {
    set a: nat | i <= a < KERNEL_PD && Pde(mem, src, a).present
  }

  lemma ToCopyNext(mem: Memory, src: nat, i: nat)
    requires i < KERNEL_PD
    ensures |ToCopy(mem, src, i)| == |ToCopy(mem, src, i + 1)| + if Pde(mem, src, i).present then 1 else 0
  {
    if Pde(mem, src, i).present {
      assert ToCopy(mem, src, i) == ToCopy(mem, src, i + 1) + {i};
    } else {
      assert ToCopy(mem, src, i) == ToCopy(mem, src, i + 1);
    }
  }

  lemma ToCopySame(v: Vm, v': Vm, src: nat, i: nat)
    requires src in v.spaces && Unnoticed(v, v')
    ensures ToCopy(v'.mem, src, i) == ToCopy(v.mem, src, i)
  {
    hide ViewsSame, OnlyTaken;
  }

  /** The child is no live space yet; its kernel half is there. */
  ghost predicate Building(v: Vm, src: nat, dst: nat) {
    && Inv(v) && src in v.spaces && dst !in v.spaces && dst in v.role && v.role[dst] == Directory
    && (forall a: nat :: KERNEL_PD <= a < ENTRIES ==> Pde(v.mem, dst, a) == Pde(v.mem, v.kernel, a))
  }

  /** Some table of the child among the first `n` was put in frame 0. */
  ghost predicate Misses(mem: Memory, dst: nat, n: nat) {
    exists a: nat :: a < n && a < KERNEL_PD && Pde(mem, dst, a).present && Pde(mem, dst, a).frame == 0
  }

  /** The copy of a table for which no frame is left: it goes to frame 0. */
  ghost function RowLost(v: Vm, src: nat, dst: nat, i: nat): Vm
    requires 0 < |v.mem| && 0 < dst < |v.mem| && i < |v.mem[dst]| && Pde(v.mem, src, i).frame < |v.mem|
  {
    var d := Pde(v.mem, src, i);
    v.(mem := SetCell(v.mem[0 := v.mem[d.frame]], dst, i, d.(frame := 0)))
  }

  lemma RowLostTables(v: Vm, src: nat, dst: nat, i: nat)
    requires Building(v, src, dst) && i < KERNEL_PD && Pde(v.mem, src, i).present
    ensures 0 < dst < |v.mem| && |v.mem[dst]| == ENTRIES && Pde(v.mem, src, i).frame < |v.mem|
    ensures var v' := RowLost(v, src, dst, i);
      && TablesSame(v.spaces, v.mem, v'.mem) && Pde(v'.mem, dst, i) == Pde(v.mem, src, i).(frame := 0)
      && (forall a: nat :: a != i ==> Pde(v'.mem, dst, a) == Pde(v.mem, dst, a))
      && (forall f :: 0 <= f < |v.mem| ==> |v'.mem[f]| == ENTRIES && (f != 0 && f != dst ==> v'.mem[f] == v.mem[f]))
  {
    assert Pde(v.mem, src, i).frame in v.role && 0 !in v.role;
    SetData(v, 0, v.mem[Pde(v.mem, src, i).frame]);
    var mem1, v' := v.mem[0 := v.mem[Pde(v.mem, src, i).frame]], RowLost(v, src, dst, i);
    forall q, a: nat | q in v.spaces && a < ENTRIES ensures Pde(v'.mem, q, a) == Pde(mem1, q, a) {
      assert q != dst;
    }
    forall q, a: nat, b: nat | q in v.spaces && a < ENTRIES ensures Pte(v'.mem, q, a, b) == Pte(mem1, q, a, b) {
      if Pde(v.mem, q, a).present { assert v.role[Pde(v.mem, q, a).frame] != Directory; }
    }
  }

  /** No live space notices that either. */
  lemma RowLostInv(v: Vm, src: nat, dst: nat, i: nat)
    requires Building(v, src, dst) && i < KERNEL_PD && Pde(v.mem, src, i).present
    ensures 0 < dst < |v.mem| && |v.mem[dst]| == ENTRIES && Pde(v.mem, src, i).frame < |v.mem|
    ensures var v' := RowLost(v, src, dst, i); Building(v', src, dst) && Unnoticed(v, v') && Misses(v'.mem, dst, i + 1)
  {
    RowLostTables(v, src, dst, i);
    var v' := RowLost(v, src, dst, i);
    UnnoticedInv(v, v');
    LostViews(v, v', dst);
    forall a: nat | KERNEL_PD <= a < ENTRIES ensures Pde(v'.mem, dst, a) == Pde(v'.mem, v'.kernel, a) {
      assert v.kernel in v.spaces;
    }
  }

  lemma LostViews(v: Vm, v': Vm, dst: nat)
    requires Inv(v) && TablesSame(v.spaces, v.mem, v'.mem) && |v'.mem| == |v.mem| && dst in v.role
    requires forall f :: 0 <= f < |v.mem| && f != 0 && f != dst ==> v'.mem[f] == v.mem[f]
    ensures ViewsSame(v.spaces, v.mem, v'.mem)
  {
    forall q, a: nat, b: nat | q in v.spaces && a < KERNEL_PD && b < ENTRIES
      ensures PageAt(v'.mem, q, a, b) == PageAt(v.mem, q, a, b)
    {
      var x := Pte(v.mem, q, a, b);
      if x.present { assert UserMaps(v.mem, q, a, b, x.frame); }
    }
  }

  /** How far the copy loop is: the first `n` tables are done, or frames have run out. */
  ghost predicate CopyState(v: Vm, src: nat, dst: nat, n: nat, lost: bool) {
    if lost then Building(v, src, dst) && Misses(v.mem, dst, n) && FreeSet(v.bits) == {} else CopyInv(v, src, dst, n)
  }

  lemma CopyBuilding(v: Vm, src: nat, dst: nat, n: nat, lost: bool)
    requires CopyState(v, src, dst, n, lost)
    ensures Building(v, src, dst) && src in v.spaces && v.kernel in v.spaces && v.role.Keys >= {src, dst}
  {
  }

  /** The copy of one table with frame `g`, or with frame 0 when none is left. */
  lemma RowStep(v: Vm, v': Vm, src: nat, dst: nat, i: nat, g: nat, lost: bool)
    requires CopyState(v, src, dst, i, lost) && i < KERNEL_PD && Pde(v.mem, src, i).present
    requires Pde(v.mem, src, i).frame < |v.mem|
    requires |v.mem| == |v.bits| == |v.refs| && 0 < dst < |v.mem| && |v.mem[dst]| == ENTRIES && g == FirstFree(v.bits)
    requires g == 0 ==> v' == RowLost(v, src, dst, i)
    requires g != 0 ==> g != dst && g < |v.mem| && !v.bits[g] && v' == RowCopied(v, src, dst, i, g)
    ensures CopyState(v', src, dst, i + 1, lost || g == 0) && Unnoticed(v, v')
    ensures (g == 0 <==> FreeSet(v.bits) == {}) && (lost ==> g == 0)
    ensures (g != 0 ==> |FreeSet(v'.bits)| == |FreeSet(v.bits)| - 1)
  {
    hide CopyInv, Building, Unnoticed, FirstFree, RowLost, RowCopied;
    CopyBuilding(v, src, dst, i, lost);
    if FreeSet(v.bits) != {} { TakeOne(v.bits); }
    if g == 0 {
      NoneFree(v.bits);
      RowLostInv(v, src, dst, i);
      assert v'.bits == v.bits by { LostBits(v, src, dst, i); }
    } else {
      assert g in FreeSet(v.bits);
      RowTaken(v, v', src, dst, i, g);
    }
  }

  lemma NoneFree(bits: seq<bool>)
    requires FirstFree(bits) == 0
    ensures FreeSet(bits) == {}
  {
  }

  lemma LostBits(v: Vm, src: nat, dst: nat, i: nat)
    requires 0 < |v.mem| && 0 < dst < |v.mem| && i < |v.mem[dst]| && Pde(v.mem, src, i).frame < |v.mem|
    ensures RowLost(v, src, dst, i).bits == v.bits
  {
  }

  lemma RowTaken(v: Vm, v': Vm, src: nat, dst: nat, i: nat, g: nat)
    requires CopyInv(v, src, dst, i) && i < KERNEL_PD && Pde(v.mem, src, i).present
    requires Pde(v.mem, src, i).frame < |v.mem|
    requires |v.mem| == |v.bits| == |v.refs| && 0 < dst < |v.mem| && |v.mem[dst]| == ENTRIES
    requires 1 <= g < |v.mem| && g != dst && !v.bits[g] && v' == RowCopied(v, src, dst, i, g)
    ensures CopyInv(v', src, dst, i + 1) && Unnoticed(v, v') && v'.bits == v.bits[g := true]
  {
    hide CopyInv, TablesSame, ViewsSame;
    assert TablesSame(v.spaces, v.mem, v'.mem) by { CopyKnown(v, src, dst, i); RowCopiedTables(v, v', src, dst, i, g); }
    RowCopiedInv(v, v', src, dst, i, g);
  }

  lemma CopyKnown(v: Vm, src: nat, dst: nat, n: nat)
    requires CopyInv(v, src, dst, n)
    ensures Inv(v) && |v.mem| == |v.refs| && Copying(v, src, dst, n)
  {
  }

  /** One table is copied, in place. */
  method CopyRow(m: Machine, dst: nat, src: nat, i: nat, ghost rs: seq<nat>, ghost lost: bool)
    returns (ghost rs': seq<nat>, ghost lost': bool)
    requires m.pmm.Valid() && Wraps(m.pmm.refs, rs) && CopyState(Unwrapped(m, rs), src, dst, i, lost) && i < KERNEL_PD
    requires Pde(m.mem, src, i).present
    modifies m`mem, m`role, m.pmm
    ensures m.pmm.Valid() && Wraps(m.pmm.refs, rs') && CopyState(Unwrapped(m, rs'), src, dst, i + 1, lost')
    ensures Unnoticed(old(Unwrapped(m, rs)), Unwrapped(m, rs')) && (lost' <==> FreeSet(old(m.pmm.bits)) == {})
    ensures (lost ==> lost')
    ensures !lost' ==> |FreeSet(m.pmm.bits)| == |FreeSet(old(m.pmm.bits))| - 1
  {
    hide CopyState, Unnoticed, FirstFree, FreeSet;
    ghost var v := Unwrapped(m, rs);
    RowBounds(v, src, dst, i, lost);
    var d := Cell(m.mem, src, i);
    var g := m.AllocFrame();
    m.mem := m.mem[g := m.mem[d.frame]];
    m.mem := SetCell(m.mem, dst, i, d.(frame := g));
    rs', lost' := rs, lost || g == 0;
    if g != 0 {
      m.role := m.role[g := Table(dst, i)];
      rs' := rs[g := 1];
      assert Unwrapped(m, rs') == RowCopied(v, src, dst, i, g);
    } else {
      assert Unwrapped(m, rs') == RowLost(v, src, dst, i);
    }
    RowStep(v, Unwrapped(m, rs'), src, dst, i, g, lost);
  }

  lemma RowBounds(v: Vm, src: nat, dst: nat, i: nat, lost: bool)
    requires CopyState(v, src, dst, i, lost) && i < KERNEL_PD && Pde(v.mem, src, i).present
    ensures |v.mem| == |v.bits| == |v.refs| && 0 < dst < |v.mem| && |v.mem[dst]| == ENTRIES
    ensures Pde(v.mem, src, i).frame < |v.mem|
    ensures v.bits[dst]
  {
    hide CopyInv;
    CopyBuilding(v, src, dst, i, lost);
    assert Pde(v.mem, src, i).frame in v.role;
  }

  /** The body of the copy loop of hal_vm_arch_clone, which does not look at the frame it gets. */
  method CopyTable(m: Machine, dst: nat, src: nat, i: nat, ghost rs: seq<nat>, ghost lost: bool)
    returns (ghost rs': seq<nat>, ghost lost': bool)
    requires m.pmm.Valid() && Wraps(m.pmm.refs, rs) && CopyState(Unwrapped(m, rs), src, dst, i, lost) && i < KERNEL_PD
    modifies m`mem, m`role, m.pmm
    ensures m.pmm.Valid() && Wraps(m.pmm.refs, rs') && CopyState(Unwrapped(m, rs'), src, dst, i + 1, lost')
    ensures Unnoticed(old(Unwrapped(m, rs)), Unwrapped(m, rs')) && (lost ==> lost')
    ensures !lost && lost' ==> FreeSet(old(m.pmm.bits)) == {} && |ToCopy(old(m.mem), src, i)| > 0
    ensures !lost' ==>
      |FreeSet(old(m.pmm.bits))| + |ToCopy(old(m.mem), src, i + 1)|
        == |FreeSet(m.pmm.bits)| + |ToCopy(old(m.mem), src, i)|
  {
    hide CopyInv, Building, FreeSet, ToCopy, Unnoticed, Wraps;
    rs', lost' := rs, lost;
    ghost var v := Unwrapped(m, rs);
    CopyBuilding(v, src, dst, i, lost);
    ToCopyNext(m.mem, src, i);
    if Cell(m.mem, src, i).present {
      rs', lost' := CopyRow(m, dst, src, i, rs, lost);
    } else {
      assert Unnoticed(v, v) by { ShapeOf(v, src, dst); UnnoticedRefl(v); }
      if !lost { RowAbsent(v, src, dst, i); }
    }
  }

  lemma ShapeOf(v: Vm, src: nat, dst: nat)
    requires Building(v, src, dst)
    ensures |v.bits| == |v.refs|
  {
  }

  lemma ViewsTrans(spaces: set<nat>, a: Memory, b: Memory, c: Memory)
    requires ViewsSame(spaces, a, b) && ViewsSame(spaces, b, c)
    ensures ViewsSame(spaces, a, c)
  {
  }

  /** The copy loop of hal_vm_arch_clone: all tables get a frame exactly if there are enough. */
  method CopyTables(m: Machine, dst: nat, src: nat, ghost rs: seq<nat>) returns (ghost rs': seq<nat>, ghost lost: bool)
    requires m.pmm.Valid() && Wraps(m.pmm.refs, rs) && CopyInv(Unwrapped(m, rs), src, dst, 0)
    modifies m`mem, m`role, m.pmm
    ensures m.pmm.Valid() && Wraps(m.pmm.refs, rs') && CopyState(Unwrapped(m, rs'), src, dst, KERNEL_PD, lost)
    ensures Unnoticed(old(Unwrapped(m, rs)), Unwrapped(m, rs'))
    ensures lost <==> |FreeSet(old(m.pmm.bits))| < |ToCopy(old(m.mem), src, 0)|
    ensures !lost ==> |FreeSet(old(m.pmm.bits))| == |FreeSet(m.pmm.bits)| + |ToCopy(old(m.mem), src, 0)|
  {
    hide Inv, CopyInv, Building, FreeSet, ToCopy, Unnoticed, Wraps;
    ghost var v := Unwrapped(m, rs);
    CopyBuilding(v, src, dst, 0, false);
    assert Unnoticed(v, v) by { ShapeOf(v, src, dst); UnnoticedRefl(v); }
    rs', lost := rs, false;
    var i := 0;
    while i < KERNEL_PD
      invariant 0 <= i <= KERNEL_PD && m.pmm.Valid() && Wraps(m.pmm.refs, rs')
      invariant CopyState(Unwrapped(m, rs'), src, dst, i, lost)
      invariant Unnoticed(v, Unwrapped(m, rs'))
      invariant lost ==> |FreeSet(v.bits)| < |ToCopy(v.mem, src, 0)|
      invariant !lost ==> |FreeSet(v.bits)| + |ToCopy(v.mem, src, i)| == |FreeSet(m.pmm.bits)| + |ToCopy(v.mem, src, 0)|
    {
      ghost var v1 := Unwrapped(m, rs');
      ToCopySame(v, v1, src, i);
      ToCopySame(v, v1, src, i + 1);
      rs', lost := CopyTable(m, dst, src, i, rs', lost);
      UnnoticedTrans(v, v1, Unwrapped(m, rs'));
      i := i + 1;
    }
    assert ToCopy(v.mem, src, KERNEL_PD) == {} by { NoneToCopy(v.mem, src); }
  }

  lemma NoneToCopy(mem: Memory, src: nat)
    ensures ToCopy(mem, src, KERNEL_PD) == {}
  {
  }

  ghost predicate EmptyUser(mem: Memory, pd: nat) {
    forall a: nat :: a < KERNEL_PD ==> !Pde(mem, pd, a).present
  }

  lemma CopyStart(v: Vm, src: nat, dst: nat)
    requires Inv(v) && Shareable(v, src) && src in v.spaces && dst in v.spaces && src != dst && dst != v.kernel
    requires EmptyUser(v.mem, dst)
    ensures CopyInv(v.(spaces := v.spaces - {dst}), src, dst, 0)
  {
    DropSpace(v, dst);
    var v' := v.(spaces := v.spaces - {dst});
    forall f | 0 <= f < |v.refs| && MapsIn(v'.mem, src, f) ensures |Sharers(v', f)| + 1 <= v'.refs[f] {
      SubsetSize(Sharers(v', f), Sharers(v, f));
    }
  }

  /** The kernel entries copied at the end are already there. */
  lemma KernelCopied(v: Vm, src: nat, dst: nat)
    requires Building(v, src, dst) && dst < |v.mem| && src < |v.mem|
    ensures |v.mem[dst]| == |v.mem[src]| == ENTRIES
    ensures v.mem[dst := v.mem[dst][..KERNEL_PD] + v.mem[src][KERNEL_PD..]] == v.mem
  {
    var d := v.mem[dst][..KERNEL_PD] + v.mem[src][KERNEL_PD..];
    forall k | 0 <= k < ENTRIES ensures d[k] == v.mem[dst][k] {
      if k >= KERNEL_PD {
        assert Pde(v.mem, dst, k) == Pde(v.mem, v.kernel, k) == Pde(v.mem, src, k);
      }
    }
    assert d == v.mem[dst];
  }

  /** Whatever the frames are taken to be used for, the invariant does not hold. */
  ghost predicate Broken(v: Vm) {
    forall role: map<nat, Role> :: !Inv(v.(role := role))
  }

  /** A fork can be carried out: a frame for each table and no count at its limit. */
  ghost predicate CanFork(v: Vm, src: nat) {
    RefsLow(v, src) && |ToCopy(v.mem, src, 0)| <= |FreeSet(v.bits)|
  }

  /** The count of a frame after a fork of `src`: one reference more if `src` maps it, in 16 bits. */
  ghost function Recounted(v: Vm, src: nat, f: nat): nat
    requires f < |v.refs|
  {
    (v.refs[f] + if MapsIn(v.mem, src, f) then 1 else 0) % REFS
  }

  /** Marks the parent and sets the child aside while it is built. */
  method MarkParent(m: Machine, dst: nat, src: nat) returns (ghost rs: seq<nat>)
    requires m.Ok() && src in m.spaces && dst in m.spaces && src != dst && dst != m.kernel && EmptyUser(m.mem, dst)
    modifies m`mem, m`spaces, m.pmm`refs
    ensures m.pmm.Valid() && Wraps(m.pmm.refs, rs) && CopyInv(Unwrapped(m, rs), src, dst, 0)
    ensures MarkedAside(old(m.V()), Unwrapped(m, rs), src, dst)
  {
    hide Inv, Marked, CopyInv, Shareable, Wraps;
    ghost var v := m.V();
    Counts(v);
    rs := SetCow(m, src);
    ghost var v1 := Unwrapped(m, rs);
    MarkedInv(v, v1, src);
    MarkedFacts(v, v1, src, dst);
    CopyStart(v1, src, dst);
    m.spaces := m.spaces - {dst};
    assert v1.(spaces := v1.spaces - {dst}) == Unwrapped(m, rs);
  }

  lemma Counts(v: Vm)
    requires Inv(v)
    ensures |v.mem| == |v.refs| == |v.bits|
  {
  }

  lemma MarkedFacts(v: Vm, v': Vm, src: nat, dst: nat)
    requires Inv(v) && src in v.spaces && dst in v.spaces && Marked(v, v', src, KERNEL_PD, 0)
    ensures v'.spaces == v.spaces && v'.kernel == v.kernel && (EmptyUser(v.mem, dst) ==> EmptyUser(v'.mem, dst))
  {
    hide KernelHalf, Tabled, DataOk, Counted, Exclusive;
  }

  /** `src` was marked, and `dst` is not live for the time being. */
  ghost predicate MarkedAside(v: Vm, v1: Vm, src: nat, dst: nat) {
    && |v.mem| == |v.refs| == |v.bits| && v1.spaces == v.spaces - {dst}
    && Marked(v, v1.(spaces := v.spaces), src, KERNEL_PD, 0)
  }

  /** The user rows of `dst` are those of `src` with tables of their own and the same flags. */
  ghost predicate RowsCopied(mem: Memory, src: nat, mem': Memory, dst: nat) {
    forall a: nat :: a < KERNEL_PD ==>
      if Pde(mem, src, a).present then Pde(mem', dst, a) == Pde(mem, src, a).(frame := Pde(mem', dst, a).frame)
      else !Pde(mem', dst, a).present
  }

  lemma ForkViews(v: Vm, v1: Vm, v2: Vm, dst: nat, src: nat)
    requires Inv(v) && src in v.spaces && src != dst && dst != v.kernel && MarkedAside(v, v1, src, dst)
    requires Unnoticed(v1, v2)
    ensures ViewsSame(v1.spaces, v.mem, v2.mem) && KernelSame(v.mem, v2.mem, v.kernel)
    ensures DirsSame(v1.spaces, v.mem, v2.mem)
    ensures ToCopy(v1.mem, src, 0) == ToCopy(v.mem, src, 0) && v1.bits == v.bits && v2.kernel == v.kernel
  {
    hide OnlyTaken;
    MarkedViews(v, v1.(spaces := v.spaces), src);
    ViewsTrans(v1.spaces, v.mem, v1.mem, v2.mem);
    hide KernelHalf, Tabled, DataOk, Counted, Exclusive, ViewsSame;
    assert v.kernel in v1.spaces;
  }

  lemma MapsAll(mem: Memory, pd: nat, f: nat)
    ensures MapsUpTo(mem, pd, f, KERNEL_PD, 0) <==> MapsIn(mem, pd, f)
  {
    if MapsIn(mem, pd, f) {
      var a: nat, b: nat :| UserMaps(mem, pd, a, b, f);
      assert Done(a, b, KERNEL_PD, 0);
    }
  }

  /** The number of references a frame in use should have. */
  lemma ForkRefs(v: Vm, v1: Vm, v2: Vm, dst: nat, src: nat, f: nat)
    requires MarkedAside(v, v1, src, dst) && Unnoticed(v1, v2) && f < |v.bits|
    ensures |v1.refs| == |v2.refs| == |v.refs| == |v2.bits| && v1.refs[f] == v.refs[f] + if MapsIn(v.mem, src, f)
      then 1 else 0
    ensures if v.bits[f] then v2.bits[f] && v2.refs[f] == v1.refs[f] else v2.refs[f] == v1.refs[f] || v2.refs[f] == 1
  {
    hide TablesSame, ViewsSame;
    MapsAll(v.mem, src, f);
  }

  lemma ForkCounts(v: Vm, v1: Vm, v2: Vm, refs: seq<nat>, dst: nat, src: nat)
    requires MarkedAside(v, v1, src, dst) && Unnoticed(v1, v2) && Wraps(refs, v2.refs)
    ensures |v2.bits| == |v.bits| == |v.refs| == |refs|
    ensures forall f :: 0 <= f < |v.bits| && v.bits[f] ==> v2.bits[f] && refs[f] == Recounted(v, src, f)
  {
    assert |v2.bits| == |v.bits| == |refs| by { hide TablesSame, ViewsSame; }
    hide MarkedAside, Unnoticed;
    forall f | 0 <= f < |v.bits| && v.bits[f] ensures v2.bits[f]
      && refs[f] == Recounted(v, src, f) { ForkRefs(v, v1, v2, dst, src, f); }
  }

  /** The kernel half of the child, after which it counts as a live space. */
  method FinishClone(m: Machine, dst: nat, src: nat, ghost rs: seq<nat>, ghost lost: bool)
    requires m.pmm.Valid() && CopyState(Unwrapped(m, rs), src, dst, KERNEL_PD, lost)
    modifies m`mem, m`spaces
    ensures m.mem == old(m.mem) && m.spaces == old(m.spaces) + {dst}
  {
    hide CopyInv;
    ghost var v := Unwrapped(m, rs);
    CopyBuilding(v, src, dst, KERNEL_PD, lost);
    assert dst in m.role && src in m.role;
    KernelCopied(v, src, dst);
    m.mem := m.mem[dst := m.mem[dst][..KERNEL_PD] + m.mem[src][KERNEL_PD..]];
    m.spaces := m.spaces + {dst};
  }

  /** A directory that leads to frame 0 breaks the invariant. */
  lemma MissesBroken(v: Vm, dst: nat)
    requires dst in v.spaces && Misses(v.mem, dst, KERNEL_PD)
    ensures Broken(v)
  {
    var a: nat :| a < KERNEL_PD && Pde(v.mem, dst, a).present && Pde(v.mem, dst, a).frame == 0;
    forall role: map<nat, Role> ensures !Inv(v.(role := role)) {
      var v' := v.(role := role);
      assert Pde(v'.mem, dst, a).present;
      hide KernelHalf, DataOk, Counted, Exclusive;
    }
  }

  /** So does a count that wrapped. */
  lemma WrapBroken(v: Vm, pd: nat, f: nat)
    requires pd in v.spaces && MapsIn(v.mem, pd, f) && f < |v.refs| && v.refs[f] == 0
    ensures Broken(v)
  {
    var i: nat, j: nat :| UserMaps(v.mem, pd, i, j, f);
    forall role: map<nat, Role> ensures !Inv(v.(role := role)) {
      var v' := v.(role := role);
      if |v.mem| == |v.bits| == |v.refs| { BrokenBy(v', pd, i, j, f); }
    }
  }

  /** A count that cannot be raised wraps, and stays so to the end. */
  lemma ForkWraps(v: Vm, v1: Vm, v2: Vm, v3: Vm, dst: nat, src: nat)
    requires Inv(v) && src in v.spaces && src != dst && MarkedAside(v, v1, src, dst) && Unnoticed(v1, v2)
    requires !RefsLow(v, src)
    requires forall f :: 0 <= f < |v.refs| ==> v.refs[f] < REFS
    requires Wraps(v3.refs, v2.refs) && v3.mem == v2.mem && v3.spaces == v2.spaces + {dst}
    ensures Broken(v3)
  {
    hide Inv, MarkedAside, Unnoticed, MapsIn, Broken;
    var f :| 0 <= f < |v.refs| && MapsIn(v.mem, src, f) && v.refs[f] >= REFS - 1;
    StillMaps(v, v1, v2, dst, src, f);
    ForkRefs(v, v1, v2, dst, src, f);
    WrapBroken(v3, src, f);
  }

  /** What the parent maps it maps to the end. */
  lemma StillMaps(v: Vm, v1: Vm, v2: Vm, dst: nat, src: nat, f: nat)
    requires Inv(v) && src in v.spaces && src != dst && MarkedAside(v, v1, src, dst) && Unnoticed(v1, v2)
    requires MapsIn(v.mem, src, f)
    ensures MapsIn(v2.mem, src, f) && src in v2.spaces && f < |v.bits| == |v.refs| && v.bits[f]
  {
    hide KernelHalf, Tabled, Counted, Exclusive, ViewsSame, OnlyTaken;
    var a: nat, b: nat :| UserMaps(v.mem, src, a, b, f);
    assert UserMaps(v1.mem, src, a, b, f);
    assert UserMaps(v2.mem, src, a, b, f);
  }

  /** If no count is at its limit none wraps. */
  lemma ForkLow(v: Vm, v1: Vm, v2: Vm, refs: seq<nat>, dst: nat, src: nat)
    requires MarkedAside(v, v1, src, dst) && Unnoticed(v1, v2) && Wraps(refs, v2.refs) && RefsLow(v, src)
    requires forall f :: 0 <= f < |v.refs| ==> v.refs[f] < REFS
    ensures refs == v2.refs
  {
    assert |v2.bits| == |v.bits| == |refs| by { hide TablesSame, ViewsSame; }
    hide MarkedAside, Unnoticed;
    forall f | 0 <= f < |refs| ensures v2.refs[f] < REFS { ForkRefs(v, v1, v2, dst, src, f); }
  }

  /** What becomes of the invariant. */
  lemma ForkSound(v: Vm, v1: Vm, v2: Vm, v3: Vm, dst: nat, src: nat, lost: bool)
    requires Inv(v) && src in v.spaces && src != dst && dst != v.kernel && MarkedAside(v, v1, src, dst)
    requires Unnoticed(v1, v2)
    requires forall f :: 0 <= f < |v.refs| ==> v.refs[f] < REFS
    requires CopyState(v2, src, dst, KERNEL_PD, lost) && (lost <==> |FreeSet(v.bits)| < |ToCopy(v.mem, src, 0)|)
    requires Wraps(v3.refs, v2.refs) && v3 == v2.(refs := v3.refs, spaces := v2.spaces + {dst})
    ensures Inv(v3) <==> CanFork(v, src)
    ensures !CanFork(v, src) ==> Broken(v3)
  {
    hide Inv, CopyInv, Building, MarkedAside, Unnoticed, RefsLow, Wraps, FreeSet, ToCopy, Broken;
    if lost {
      MissesBroken(v3, dst);
      BrokenNow(v3);
    } else if !RefsLow(v, src) {
      ForkWraps(v, v1, v2, v3, dst, src);
      BrokenNow(v3);
    } else {
      ForkLow(v, v1, v2, v3.refs, dst, src);
      AddSpace(v2, v3, src, dst);
    }
  }

  lemma BrokenNow(v: Vm)
    requires Broken(v)
    ensures !Inv(v)
  {
    assert v == v.(role := v.role);
  }

  /** The child sees what the parent saw before. */
  lemma ForkPages(v: Vm, v2: Vm, live: set<nat>, dst: nat, src: nat)
    requires src in live && ViewsSame(live, v.mem, v2.mem) && CopyInv(v2, src, dst, KERNEL_PD)
    requires DirsSame(live, v.mem, v2.mem)
    ensures RowsCopied(v.mem, src, v2.mem, dst)
    ensures forall a: nat, b: nat :: a < KERNEL_PD && b < ENTRIES ==>
      PageAt(v2.mem, dst, a, b) == PageAt(v.mem, src, a, b)
  {
    hide Inv, Shareable;
    assert RowsCopied(v2.mem, src, v2.mem, dst);
    assert PdesSame(v.mem, v2.mem, src);
    forall a: nat, b: nat | a < KERNEL_PD && b < ENTRIES ensures PageAt(v2.mem, dst, a, b) == PageAt(v.mem, src, a, b) {
      assert Pte(v2.mem, dst, a, b) == Pte(v2.mem, src, a, b);
    }
  }

  /** hal_vm_arch_clone into a fresh space. No other space sees any change and every frame that was
      in use has the count it should have, in 16 bits. With a frame for each table the child sees
      exactly the parent's pages and permissions. The invariant holds exactly if moreover no count
      wrapped; otherwise it is broken beyond repair. */
  method Clone(m: Machine, dst: nat, src: nat)
    requires m.Ok() && src in m.spaces && dst in m.spaces && src != dst && dst != m.kernel && EmptyUser(m.mem, dst)
    modifies m`mem, m`role, m`spaces, m.pmm
    ensures m.pmm.Valid() && m.spaces == old(m.spaces) && |m.pmm.bits| == |old(m.pmm.bits)| == |m.pmm.refs|
    ensures m.Ok() <==> old(CanFork(m.V(), src))
    ensures !old(CanFork(m.V(), src)) ==> Broken(m.V())
    ensures ViewsSame(m.spaces - {dst}, old(m.mem), m.mem) && KernelSame(old(m.mem), m.mem, m.kernel)
    ensures DirsSame(m.spaces - {dst}, old(m.mem), m.mem)
    ensures |ToCopy(old(m.mem), src, 0)| <= |FreeSet(old(m.pmm.bits))| ==>
      && |FreeSet(m.pmm.bits)| == |FreeSet(old(m.pmm.bits))| - |ToCopy(old(m.mem), src, 0)|
      && (forall a: nat, b: nat :: a < KERNEL_PD && b < ENTRIES ==>
        PageAt(m.mem, dst, a, b) == PageAt(old(m.mem), src, a, b))
      && RowsCopied(old(m.mem), src, m.mem, dst)
    ensures |old(m.pmm.refs)| == |old(m.pmm.bits)|
    ensures forall f :: 0 <= f < |m.pmm.bits| && old(m.pmm.bits)[f] ==>
      m.pmm.bits[f] && m.pmm.refs[f] == Recounted(old(m.V()), src, f)
  {
    hide Inv, CopyInv, Building, RefsLow, Unnoticed, FreeSet, ToCopy, Marked, Wraps, ViewsSame, KernelSame,
      Recounted, EmptyUser, Broken, DirsSame, RowsCopied;
    ghost var v := m.V();
    var rs := MarkParent(m, dst, src);
    ghost var v1 := Unwrapped(m, rs);
    ghost var rs', lost;
    rs', lost := CopyTables(m, dst, src, rs);
    ghost var v2 := Unwrapped(m, rs');
    ForkViews(v, v1, v2, dst, src);
    ForkCounts(v, v1, v2, m.pmm.refs, dst, src);
    FinishClone(m, dst, src, rs', lost);
    ForkSound(v, v1, v2, m.V(), dst, src, lost);
    if !lost { ForkPages(v, v2, v1.spaces, dst, src); }
    assert m.spaces - {dst} == v1.spaces && m.spaces == v.spaces;
  }
}
