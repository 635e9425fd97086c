/** Two-level page tables that live in the physical memory they map. */
module PageTables {
  import opened PteBits

  const ENTRIES := 1024
  const KERNEL_PD := 768

  /** One 4 KiB frame as 1024 words. */
  type Frame = seq<Word>
  type Memory = seq<Frame>

  function Cell(mem: Memory, f: nat, k: nat): Word {
    if f < |mem| && k < |mem[f]| then mem[f][k] else ZERO
  }

  /** Directory entry `i` of the space whose directory is frame `pd`. */
  function Pde(mem: Memory, pd: nat, i: nat): Word {
    Cell(mem, pd, i)
  }

  /** The page table entry for virtual page (i, j), zero if there is no table. */
  function Pte(mem: Memory, pd: nat, i: nat, j: nat): Word {
    if Pde(mem, pd, i).present then Cell(mem, Pde(mem, pd, i).frame, j) else ZERO
  }

  /** User page (i, j) of space `pd` is backed by frame `f`. */
  predicate UserMaps(mem: Memory, pd: nat, i: nat, j: nat, f: nat) {
    i < KERNEL_PD && j < ENTRIES && Pte(mem, pd, i, j).present && Pte(mem, pd, i, j).frame == f
  }

  ghost predicate MapsIn(mem: Memory, pd: nat, f: nat) {
    exists i: nat, j: nat :: UserMaps(mem, pd, i, j, f)
  }

  /** What a frame is used for, if not for data. */
  datatype Role = Directory | Table(pd: nat, i: nat) | KernelTable(i: nat)

  /** Memory, allocator, and ghost bookkeeping: the live spaces (by directory frame) and the
      role of every frame that holds a table. */
  datatype Vm = Vm(mem: Memory, bits: seq<bool>, refs: seq<nat>, spaces: set<nat>, kernel: nat, role: map<nat, Role>)

  ghost function Sharers(v: Vm, f: nat): set<nat> {
    set pd | pd in v.spaces && MapsIn(v.mem, pd, f)
  }

  ghost predicate Shape(v: Vm) {
    && |v.mem| == |v.bits| == |v.refs| <= 0x10_0000
    && (forall f :: 0 <= f < |v.mem| ==> |v.mem[f]| == ENTRIES)
    && v.kernel in v.spaces
    && (forall f :: f in v.role ==> 1 <= f < |v.mem| && v.bits[f] && v.refs[f] == 1)
  }

  /** Directories and tables are distinct frames, each with one place in one space; kernel
      tables are shared by all spaces. Directories leave it to the tables what may be written. */
  ghost predicate Tabled(v: Vm) {
    && (forall pd :: pd in v.spaces ==> pd in v.role && v.role[pd] == Directory)
    && (forall pd, i: nat :: pd in v.spaces && i < ENTRIES && Pde(v.mem, pd, i).present ==>
          var t := Pde(v.mem, pd, i).frame;
          && Pde(v.mem, pd, i).writable
          && t in v.role && v.role[t] == if i < KERNEL_PD then Table(pd, i) else KernelTable(i))
  }

  /** Every space has the kernel's upper-half directory entries, all of them present. */
  ghost predicate KernelHalf(v: Vm) {
    forall pd, i: nat :: pd in v.spaces && KERNEL_PD <= i < ENTRIES ==>
      Pde(v.mem, pd, i) == Pde(v.mem, v.kernel, i) && Pde(v.mem, pd, i).present
  }

  /** User mappings point to allocated data frames, at most once per space. */
  ghost predicate DataOk(v: Vm)
    requires |v.mem| == |v.bits|
  {
    && (forall pd, i: nat, j: nat, f: nat :: pd in v.spaces && UserMaps(v.mem, pd, i, j, f) ==>
          1 <= f < |v.mem| && f !in v.role && v.bits[f])
    && (forall pd, i: nat, j: nat, i': nat, j': nat, f: nat ::
          pd in v.spaces && UserMaps(v.mem, pd, i, j, f) && UserMaps(v.mem, pd, i', j', f) ==> i == i' && j == j')
  }

  /** A frame under a writable user entry has no other user mapping, and copy-on-write entries
      are present and read-only. */
  ghost predicate Exclusive(v: Vm) {
    && (forall pd, i: nat, j: nat, f: nat, pd' ::
          (pd in v.spaces && pd' in v.spaces && UserMaps(v.mem, pd, i, j, f) && Pte(v.mem, pd, i, j).writable
           && MapsIn(v.mem, pd', f)) ==> pd' == pd)
    && (forall pd, i: nat, j: nat :: pd in v.spaces && i < KERNEL_PD && j < ENTRIES && Pte(v.mem, pd, i, j).cow ==>
          Pte(v.mem, pd, i, j).present && !Pte(v.mem, pd, i, j).writable)
  }

  /** Reference counts never fall below the number of spaces that map a frame. */
  ghost predicate Counted(v: Vm)
    requires |v.mem| == |v.refs|
  {
    forall f :: 0 <= f < |v.mem| ==> |Sharers(v, f)| <= v.refs[f]
  }

  ghost predicate Inv(v: Vm) {
    Shape(v) && Tabled(v) && KernelHalf(v) && DataOk(v) && Exclusive(v) && Counted(v)
  }

  /** The directory entries of all spaces are unchanged, and their table entries too, except
      that (i, j) of `pd` is now `w`. */
  ghost predicate PteChanged(spaces: set<nat>, mem: Memory, mem': Memory, pd: nat, i: nat, j: nat, w: Word) {
    && (forall q, a: nat :: q in spaces && a < ENTRIES ==> Pde(mem', q, a) == Pde(mem, q, a))
    && (forall q, a: nat, b: nat :: q in spaces && a < ENTRIES ==>
          Pte(mem', q, a, b) == if q == pd && a == i && b == j then w else Pte(mem, q, a, b))
  }

  /** Only user entries: all are unchanged, except that (i, j) of `pd` is now `w`. */
  ghost predicate UserPteChanged(spaces: set<nat>, mem: Memory, mem': Memory, pd: nat, i: nat, j: nat, w: Word) {
    forall q, a: nat, b: nat :: q in spaces && a < KERNEL_PD && b < ENTRIES ==>
      Pte(mem', q, a, b) == if q == pd && a == i && b == j then w else Pte(mem, q, a, b)
  }

  ghost predicate TablesSame(spaces: set<nat>, mem: Memory, mem': Memory) {
    && (forall q, a: nat :: q in spaces && a < ENTRIES ==> Pde(mem', q, a) == Pde(mem, q, a))
    && (forall q, a: nat, b: nat :: q in spaces && a < ENTRIES ==> Pte(mem', q, a, b) == Pte(mem, q, a, b))
  }

  function SetCell(mem: Memory, f: nat, k: nat, w: Word): (r: Memory)
    requires f < |mem| && k < |mem[f]|
    ensures |r| == |mem| && forall g :: 0 <= g < |mem| ==> |r[g]| == |mem[g]| && (g != f ==> r[g] == mem[g])
    ensures forall g: nat, a: nat :: Cell(r, g, a) == if g == f && a == k then w else Cell(mem, g, a)
  {
    mem[f := mem[f][k := w]]
  }

  /** Writing one entry of a user page table. */
  lemma SetPte(v: Vm, pd: nat, i: nat, j: nat, w: Word)
    requires Shape(v) && Tabled(v) && pd in v.spaces && i < KERNEL_PD && j < ENTRIES && Pde(v.mem, pd, i).present
    ensures Pde(v.mem, pd, i).frame < |v.mem|
    ensures PteChanged(v.spaces, v.mem, SetCell(v.mem, Pde(v.mem, pd, i).frame, j, w), pd, i, j, w)
  {
    var t := Pde(v.mem, pd, i).frame;
    assert t in v.role && v.role[t] == Table(pd, i);
    var mem' := SetCell(v.mem, t, j, w);
    forall q, a: nat | q in v.spaces && a < ENTRIES ensures Pde(mem', q, a) == Pde(v.mem, q, a) {
      assert v.role[q] == Directory;
    }
  }

  /** Overwriting a frame that is not a table. */
  lemma SetData(v: Vm, f: nat, content: Frame)
    requires Shape(v) && Tabled(v) && f < |v.mem| && f !in v.role && |content| == ENTRIES
    ensures TablesSame(v.spaces, v.mem, v.mem[f := content])
  {
    var mem' := v.mem[f := content];
    forall q, a: nat | q in v.spaces && a < ENTRIES ensures Pde(mem', q, a) == Pde(v.mem, q, a) {
      assert q in v.role;
    }
  }

  /** The allocator change that goes with replacing the frame behind one entry: `g` is taken
      (0 for none), `prev` is given up (0 for none) by dropping at most one reference, and free
      frames may have become tables. */
  ghost predicate Reassigned(v: Vm, v': Vm, prev: nat, g: nat)
    requires |v.mem| == |v.bits| == |v.refs|
  {
    && |v'.bits| == |v'.refs| == |v.bits|
    && (forall f :: 0 <= f < |v.bits| && f in v'.role && f !in v.role ==> !v.bits[f] && f != g)
    && (forall f :: 0 <= f < |v.bits| && v.bits[f] && f != prev && f != g ==> v'.bits[f] && v'.refs[f] == v.refs[f])
    && (0 < g < |v.bits| ==> v'.bits[g] && v'.refs[g] >= 1)
    && (0 < prev < |v.bits| && prev != g ==>
          || (v'.bits[prev] == v.bits[prev] && v'.refs[prev] == v.refs[prev])
          || (v.refs[prev] >= 1 && v'.refs[prev] == v.refs[prev] - 1
            && v'.bits[prev] == (v.bits[prev] && v.refs[prev] > 1)))
  }

  /** The frame behind an entry, 0 if there is none. */
  function FrameOf(w: Word): nat {
    if w.present then w.frame else 0
  }

  lemma UserMapsChanged(spaces: set<nat>, mem: Memory, mem': Memory, pd: nat, i: nat, j: nat, w: Word)
    requires UserPteChanged(spaces, mem, mem', pd, i, j, w) && i < KERNEL_PD && j < ENTRIES
    ensures forall q, a: nat, b: nat, f: nat :: q in spaces ==>
      (UserMaps(mem', q, a, b, f) <==>
        if q == pd && a == i && b == j then w.present && w.frame == f else UserMaps(mem, q, a, b, f))
  {
  }

  /** Which frames a space maps after its entry (i, j) changed. */
  lemma MapsInChanged(v: Vm, mem': Memory, i: nat, j: nat, w: Word, pd: nat, q: nat, f: nat)
    requires Shape(v) && DataOk(v) && UserPteChanged(v.spaces, v.mem, mem', pd, i, j, w) && i < KERNEL_PD && j < ENTRIES
    requires pd in v.spaces && q in v.spaces && 0 < f
    ensures q != pd ==> (MapsIn(mem', q, f) <==> MapsIn(v.mem, q, f))
    ensures q == pd ==> (MapsIn(mem', q, f) <==>
              FrameOf(w) == f || (MapsIn(v.mem, q, f) && f != FrameOf(Pte(v.mem, pd, i, j))))
  {
    UserMapsChanged(v.spaces, v.mem, mem', pd, i, j, w);
    if FrameOf(w) == f { assert UserMaps(mem', pd, i, j, f); }
    if MapsIn(v.mem, q, f) {
      var a: nat, b: nat :| UserMaps(v.mem, q, a, b, f);
      if q == pd && f == FrameOf(Pte(v.mem, pd, i, j)) {
        assert UserMaps(v.mem, pd, i, j, f);
      } else {
        assert UserMaps(mem', q, a, b, f);
      }
    }
    if MapsIn(mem', q, f) {
      var a: nat, b: nat :| UserMaps(mem', q, a, b, f);
      assert (q == pd && a == i && b == j) || UserMaps(v.mem, q, a, b, f);
    }
  }

  /** One user entry (i, j) of `pd` was replaced by `w`, together with the allocator change. */
  ghost predicate Remapped(v: Vm, v': Vm, pd: nat, i: nat, j: nat, w: Word)
    requires |v.mem| == |v.bits| == |v.refs|
  {
    && pd in v.spaces && i < KERNEL_PD && j < ENTRIES
    && v'.spaces == v.spaces && v'.kernel == v.kernel && |v'.mem| == |v.mem|
    && Shape(v') && Tabled(v') && KernelHalf(v')
    && UserPteChanged(v.spaces, v.mem, v'.mem, pd, i, j, w)
    && Reassigned(v, v', FrameOf(Pte(v.mem, pd, i, j)), FrameOf(w))
    && (w.present ==> 0 < w.frame < |v.mem| && w.frame !in v.role && Sharers(v, w.frame) == {})
    && (w.cow ==> w.present && !w.writable)
  }

  /** The tables stay well formed when only one user entry changes. */
  lemma PteChangedShape(v: Vm, v': Vm, pd: nat, i: nat, j: nat, w: Word)
    requires Inv(v) && PteChanged(v.spaces, v.mem, v'.mem, pd, i, j, w) && pd in v.spaces && i < KERNEL_PD
    requires j < ENTRIES
    requires v'.spaces == v.spaces && v'.kernel == v.kernel && v'.role == v.role
    requires |v'.mem| == |v'.bits| == |v'.refs| == |v.mem| && (forall f :: 0 <= f < |v'.mem| ==> |v'.mem[f]| == ENTRIES)
    requires forall f :: f in v.role && 0 <= f < |v.bits| ==> v'.bits[f] == v.bits[f] && v'.refs[f] == v.refs[f]
    ensures Shape(v') && Tabled(v') && KernelHalf(v') && UserPteChanged(v.spaces, v.mem, v'.mem, pd, i, j, w)
  {
  }

  lemma RemappedSharers(v: Vm, v': Vm, pd: nat, i: nat, j: nat, w: Word, f: nat)
    requires Inv(v) && Remapped(v, v', pd, i, j, w) && 0 < f
    ensures Sharers(v', f) ==
      if f == FrameOf(w) then {pd}
      else if f == FrameOf(Pte(v.mem, pd, i, j)) then Sharers(v, f) - {pd}
      else Sharers(v, f)
    ensures f == FrameOf(Pte(v.mem, pd, i, j)) ==> pd in Sharers(v, f)
  {
    var prev := FrameOf(Pte(v.mem, pd, i, j));
    if f == prev { assert UserMaps(v.mem, pd, i, j, f); }
    if f == FrameOf(w) { assert UserMaps(v'.mem, pd, i, j, f); }
    forall q | q in v.spaces
      ensures q in Sharers(v', f) <==>
        if f == FrameOf(w) then q == pd else q in Sharers(v, f) && !(f == prev && q == pd)
    {
      MapsInChanged(v, v'.mem, i, j, w, pd, q, f);
      assert f == FrameOf(w) ==> q !in Sharers(v, f);
    }
  }

  lemma RemappedCounted(v: Vm, v': Vm, pd: nat, i: nat, j: nat, w: Word)
    requires Inv(v) && Remapped(v, v', pd, i, j, w)
    ensures Counted(v')
  {
    forall f | 0 <= f < |v'.mem| ensures |Sharers(v', f)| <= v'.refs[f] {
      if f == 0 {
        NoZero(v, v', pd, i, j, w);
      } else {
        RemappedSharers(v, v', pd, i, j, w, f);
      }
    }
  }

  /** Frame 0 backs no user page. */
  lemma NoZero(v: Vm, v': Vm, pd: nat, i: nat, j: nat, w: Word)
    requires Inv(v) && Remapped(v, v', pd, i, j, w)
    ensures Sharers(v', 0) == {}
  {
    UserMapsChanged(v.spaces, v.mem, v'.mem, pd, i, j, w);
  }

  lemma BackedAt(v: Vm, v': Vm, pd: nat, i: nat, j: nat, w: Word, q: nat, a: nat, b: nat, f: nat)
    requires Inv(v) && Remapped(v, v', pd, i, j, w) && q in v'.spaces && UserMaps(v'.mem, q, a, b, f)
    ensures 1 <= f < |v'.mem| && f !in v'.role && v'.bits[f]
  {
    hide Tabled, KernelHalf, Exclusive;
    UserMapsChanged(v.spaces, v.mem, v'.mem, pd, i, j, w);
    if f == FrameOf(Pte(v.mem, pd, i, j)) && f != FrameOf(w) {
      RemappedSharers(v, v', pd, i, j, w, f);
      assert q in Sharers(v', f);
      assert Sharers(v, f) == Sharers(v', f) + {pd};
      TwoElements(Sharers(v, f), pd, q);
    }
  }

  lemma RemappedData(v: Vm, v': Vm, pd: nat, i: nat, j: nat, w: Word)
    requires Inv(v) && Remapped(v, v', pd, i, j, w)
    ensures DataOk(v')
  {
    forall q, a: nat, b: nat, f: nat | q in v'.spaces && UserMaps(v'.mem, q, a, b, f)
      ensures 1 <= f < |v'.mem| && f !in v'.role && v'.bits[f]
    {
      BackedAt(v, v', pd, i, j, w, q, a, b, f);
    }
    UserMapsChanged(v.spaces, v.mem, v'.mem, pd, i, j, w);
    forall q, a: nat, b: nat, a': nat, b': nat, f: nat |
        q in v'.spaces && UserMaps(v'.mem, q, a, b, f) && UserMaps(v'.mem, q, a', b', f)
      ensures a == a' && b == b'
    {
      if f == FrameOf(w) { FreshFrame(v, f, q); }
    }
  }

  lemma FreshFrame(v: Vm, f: nat, q: nat)
    requires Sharers(v, f) == {} && q in v.spaces
    ensures forall a: nat, b: nat :: !UserMaps(v.mem, q, a, b, f)
  {
    assert q !in Sharers(v, f);
  }

  lemma TwoElements(s: set<nat>, x: nat, y: nat)
    requires x in s && y in s && x != y
    ensures |s| >= 2
  {
    assert {x, y} <= s;
    assert |s - {x}| == |s| - 1 && y in s - {x};
  }

  lemma ExclusiveAt(v: Vm, v': Vm, pd: nat, i: nat, j: nat, w: Word, q: nat, a: nat, b: nat, f: nat, q': nat)
    requires Inv(v) && Remapped(v, v', pd, i, j, w) && DataOk(v')
    requires q in v'.spaces && q' in v'.spaces && UserMaps(v'.mem, q, a, b, f) && Pte(v'.mem, q, a, b).writable
    requires MapsIn(v'.mem, q', f)
    ensures q' == q
  {
    UserMapsChanged(v.spaces, v.mem, v'.mem, pd, i, j, w);
    RemappedSharers(v, v', pd, i, j, w, f);
    assert q in Sharers(v', f) && q' in Sharers(v', f);
  }

  lemma RemappedExclusive(v: Vm, v': Vm, pd: nat, i: nat, j: nat, w: Word)
    requires Inv(v) && Remapped(v, v', pd, i, j, w) && DataOk(v')
    ensures Exclusive(v')
  {
    forall q, a: nat, b: nat, f: nat, q' |
        q in v'.spaces && q' in v'.spaces && UserMaps(v'.mem, q, a, b, f) && Pte(v'.mem, q, a, b).writable
          && MapsIn(v'.mem, q', f)
      ensures q' == q
    {
      ExclusiveAt(v, v', pd, i, j, w, q, a, b, f, q');
    }
  }

  /** Every replacement of a user entry by a fresh frame, or by nothing, keeps the invariant. */
  lemma RemappedInv(v: Vm, v': Vm, pd: nat, i: nat, j: nat, w: Word)
    requires Inv(v) && Remapped(v, v', pd, i, j, w)
    ensures Inv(v')
  {
    RemappedData(v, v', pd, i, j, w);
    RemappedExclusive(v, v', pd, i, j, w);
    RemappedCounted(v, v', pd, i, j, w);
  }

  /** The user entries of all spaces are the same in both memories. */
  ghost predicate UserSame(spaces: set<nat>, mem: Memory, mem': Memory) {
    forall q, a: nat, b: nat :: q in spaces && a < KERNEL_PD && b < ENTRIES ==> Pte(mem', q, a, b) == Pte(mem, q, a, b)
  }

  lemma UserSameMaps(v: Vm, v': Vm)
    requires UserSame(v.spaces, v.mem, v'.mem) && v'.spaces == v.spaces
    ensures forall q, a: nat, b: nat, f: nat :: q in v.spaces ==>
      (UserMaps(v'.mem, q, a, b, f) <==> UserMaps(v.mem, q, a, b, f))
    ensures forall q, f: nat :: q in v.spaces ==> (MapsIn(v'.mem, q, f) <==> MapsIn(v.mem, q, f))
    ensures forall f: nat :: Sharers(v', f) == Sharers(v, f)
  {
    forall q, f: nat | q in v.spaces ensures MapsIn(v'.mem, q, f) <==> MapsIn(v.mem, q, f) {
      if MapsIn(v'.mem, q, f) {
        var a: nat, b: nat :| UserMaps(v'.mem, q, a, b, f);
        assert UserMaps(v.mem, q, a, b, f);
      }
      if MapsIn(v.mem, q, f) {
        var a: nat, b: nat :| UserMaps(v.mem, q, a, b, f);
        assert UserMaps(v'.mem, q, a, b, f);
      }
    }
    forall f: nat ensures Sharers(v', f) == Sharers(v, f) {}
  }

  lemma FreeUnmapped(v: Vm, g: nat)
    requires Inv(v) && g < |v.bits| && !v.bits[g]
    ensures g !in v.role && Sharers(v, g) == {}
    ensures forall q, a: nat, b: nat :: q in v.spaces ==> !UserMaps(v.mem, q, a, b, g)
  {
    forall q | q in v.spaces ensures !MapsIn(v.mem, q, g) {}
  }

  lemma UserSameCounted(v: Vm, v': Vm)
    requires Inv(v) && v'.spaces == v.spaces && |v'.mem| == |v'.refs| == |v.mem|
    requires forall f: nat :: Sharers(v', f) == Sharers(v, f)
    requires forall f :: 0 <= f < |v.mem| && v.bits[f] ==> v'.refs[f] == v.refs[f]
    ensures Counted(v')
  {
    forall f | 0 <= f < |v.mem| ensures |Sharers(v', f)| <= v'.refs[f] {
      if !v.bits[f] { FreeUnmapped(v, f); }
    }
  }

  /** Changes that leave the user entries of all spaces, and the frames in use, alone. */
  lemma UserSameInv(v: Vm, v': Vm)
    requires Inv(v) && v'.spaces == v.spaces && |v'.mem| == |v.mem| && UserSame(v.spaces, v.mem, v'.mem)
    requires Shape(v') && Tabled(v') && KernelHalf(v')
    requires forall f :: f in v'.role && f !in v.role ==> 0 <= f < |v.mem| && !v.bits[f]
    requires forall f :: 0 <= f < |v.mem| && v.bits[f] ==> v'.bits[f] && v'.refs[f] == v.refs[f]
    ensures Inv(v')
  {
    UserSameMaps(v, v');
    UserSameCounted(v, v');
    hide Shape, Tabled, KernelHalf, Counted;
    assert DataOk(v');
    assert Exclusive(v');
  }
}
