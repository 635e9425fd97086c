/** The paging code of the i686 port, as operations on a machine: physical memory and the frame
    allocator, updated in place. */
module Vmm {
  import opened Common
  import opened PteBits
  import opened PageTables
  import opened Pmm
  import opened Bitmap

  const PAGE := 4096
  const LARGE := 0x40_0000
  const KERNEL_BASE := 0xC000_0000

  /** A page as seen from a space: its contents, whether writing to it is allowed, at once or after
      a copy, and whether a user program may use it at all. */
  datatype Page = Page(content: Frame, writable: bool, user: bool)

  /** The processor allows what both levels allow. */
  function Shown(d: Word, w: Word, content: Frame): Page {
    Page(content, d.writable && (w.writable || w.cow), d.user && w.user)
  }

  /** The entry of a kernel page, with the rights that both levels give. */
  function KernelWord(mem: Memory, pd: nat, i: nat, j: nat): Word {
    var d, w := Pde(mem, pd, i), Pte(mem, pd, i, j);
    w.(writable := d.writable && w.writable, user := d.user && w.user)
  }

  function PageAt(mem: Memory, pd: nat, i: nat, j: nat): Option<Page> {
    var w := Pte(mem, pd, i, j);
    if w.present && w.frame < |mem| then Some(Shown(Pde(mem, pd, i), w, mem[w.frame])) else None
  }

  /** Every user page of every space reads the same in both memories. */
  ghost predicate ViewsSame(spaces: set<nat>, mem: Memory, mem': Memory) {
    forall q, a: nat, b: nat :: q in spaces && a < KERNEL_PD && b < ENTRIES ==>
      PageAt(mem', q, a, b) == PageAt(mem, q, a, b)
  }

  ghost predicate PdesSame(mem: Memory, mem': Memory, pd: nat) {
    forall a: nat :: a < ENTRIES ==> Pde(mem', pd, a) == Pde(mem, pd, a)
  }

  /** The directory of the kernel and every kernel page are unchanged. */
  ghost predicate KernelSame(mem: Memory, mem': Memory, pd: nat) {
    && PdesSame(mem, mem', pd)
    && forall a: nat, b: nat :: KERNEL_PD <= a < ENTRIES && b < ENTRIES ==> Pte(mem', pd, a, b) == Pte(mem, pd, a, b)
  }

  /** The directories of all spaces are unchanged. */
  ghost predicate DirsSame(spaces: set<nat>, mem: Memory, mem': Memory) {
    forall q :: q in spaces ==> PdesSame(mem, mem', q)
  }

  /** The directories of all spaces but `pd` are unchanged. */
  ghost predicate OthersSame(spaces: set<nat>, mem: Memory, mem': Memory, pd: nat) {
    forall q :: q in spaces && q != pd ==> PdesSame(mem, mem', q)
  }

  /** The frame `f` of a copy-on-write page can be copied: there is a free frame, and the
      16-bit count of `f` does not wrap when one is added. */
  ghost predicate CanCopy(v: Vm, f: nat)
    requires |v.bits| == |v.refs|
  {
    f < |v.refs| && v.refs[f] < REFS - 1 && exists g :: 1 <= g < |v.bits| && !v.bits[g]
  }

  /** After a successful copy: same contents in a private frame. */
  lemma CopiedInv(v: Vm, v': Vm, pd: nat, i: nat, j: nat, g: nat, w: Word)
    requires Inv(v) && pd in v.spaces && i < KERNEL_PD && j < ENTRIES && Pte(v.mem, pd, i, j).cow
    requires var old_ := Pte(v.mem, pd, i, j).frame;
      && 1 <= g < |v.mem| && !v.bits[g] && old_ < |v.mem|
        && w == Pte(v.mem, pd, i, j).(frame := g, writable := true, cow := false)
      && Pde(v.mem, pd, i).present && Pde(v.mem, pd, i).frame < |v.mem|
      && v' == v.(mem := SetCell(v.mem[g := v.mem[old_]], Pde(v.mem, pd, i).frame, j, w), bits := v.bits[g := true],
        refs := v.refs[g := 1])
    ensures Inv(v') && ViewsSame(v.spaces, v.mem, v'.mem) && Pte(v'.mem, pd, i, j) == w
  {
    var f := Pte(v.mem, pd, i, j).frame;
    assert UserMaps(v.mem, pd, i, j, f);
    assert g !in v.role;
    var mem1 := v.mem[g := v.mem[f]];
    SetData(v, g, v.mem[f]);
    SetPte(v.(mem := mem1), pd, i, j, w);
    assert PteChanged(v.spaces, v.mem, v'.mem, pd, i, j, w);
    assert Sharers(v, g) == {};
    PteChangedShape(v, v', pd, i, j, w);
    RemappedInv(v, v', pd, i, j, w);
    CopiedViews(v, v', pd, i, j, g, w);
  }

  lemma CopiedViews(v: Vm, v': Vm, pd: nat, i: nat, j: nat, g: nat, w: Word)
    requires Inv(v) && pd in v.spaces && i < KERNEL_PD && j < ENTRIES
    requires UserMaps(v.mem, pd, i, j, Pte(v.mem, pd, i, j).frame)
    requires 1 <= g < |v.mem| && g !in v.role && Sharers(v, g) == {} && w.present && w.frame == g
    requires |v'.mem| == |v.mem| && PteChanged(v.spaces, v.mem, v'.mem, pd, i, j, w)
    requires v'.mem[g] == v.mem[Pte(v.mem, pd, i, j).frame]
    requires (w.writable || w.cow) == (Pte(v.mem, pd, i, j).writable || Pte(v.mem, pd, i, j).cow)
    requires w.user == Pte(v.mem, pd, i, j).user
    requires forall f :: 0 <= f < |v.mem| && f != g && f !in v.role ==> v'.mem[f] == v.mem[f]
    ensures ViewsSame(v.spaces, v.mem, v'.mem)
  {
    forall q, a: nat, b: nat | q in v.spaces && a < KERNEL_PD && b < ENTRIES
      ensures PageAt(v'.mem, q, a, b) == PageAt(v.mem, q, a, b)
    {
      var x := Pte(v.mem, q, a, b);
      if x.present {
        assert UserMaps(v.mem, q, a, b, x.frame);
        FreshFrame(v, g, q);
      }
    }
  }

  /** A space that maps a frame whose count is 0, or frame 0, breaks the invariant. */
  lemma BrokenBy(v: Vm, pd: nat, i: nat, j: nat, f: nat)
    requires |v.mem| == |v.bits| == |v.refs| && pd in v.spaces && UserMaps(v.mem, pd, i, j, f)
    requires f == 0 || (f < |v.refs| && v.refs[f] == 0)
    ensures !Inv(v)
  {
    if f != 0 {
      assert MapsIn(v.mem, pd, f) && pd in Sharers(v, f);
      assert {pd} <= Sharers(v, f);
      SubsetSize({pd}, Sharers(v, f));
    }
  }

  /** The frame pmm_frame_alloc takes, 0 if there is none. */
  function FirstFree(bits: seq<bool>): nat {
    var n := FirstClear(bits, 1);
    if n == -1 then 0 else n
  }

  lemma FirstFreeIs(bits: seq<bool>, g: nat)
    requires g == 0 ==> forall f :: 1 <= f < |bits| ==> bits[f]
    requires g != 0 ==> g < |bits| && !bits[g] && forall f :: 1 <= f < g ==> bits[f]
    ensures g == FirstFree(bits)
  {
  }

  lemma TakeOne(bits: seq<bool>)
    requires FreeSet(bits) != {}
    ensures FirstFree(bits) in FreeSet(bits)
    ensures |FreeSet(bits[FirstFree(bits) := true])| == |FreeSet(bits)| - 1
  {
    var g := FirstFree(bits);
    var x :| x in FreeSet(bits);
    assert g != 0;
    assert FreeSet(bits[g := true]) == FreeSet(bits) - {g};
  }

  /** What an entry and its table need so that the fault can be handled. */
  ghost predicate CowReady(v: Vm, pd: nat, i: nat, j: nat) {
    && |v.mem| == |v.bits| == |v.refs|
    && Pde(v.mem, pd, i).present && Pde(v.mem, pd, i).frame < |v.mem| && j < |v.mem[Pde(v.mem, pd, i).frame]|
    && (forall f :: 0 <= f < |v.mem| ==> |v.mem[f]| == ENTRIES)
    && Pte(v.mem, pd, i, j).cow
    && 1 <= Pte(v.mem, pd, i, j).frame < |v.mem| && v.bits[Pte(v.mem, pd, i, j).frame]
  }

  lemma CowBounds(v: Vm, pd: nat, i: nat, j: nat)
    requires Inv(v) && pd in v.spaces && i < KERNEL_PD && j < ENTRIES && Pte(v.mem, pd, i, j).cow
    ensures CowReady(v, pd, i, j) && UserMaps(v.mem, pd, i, j, Pte(v.mem, pd, i, j).frame)
  {
    assert UserMaps(v.mem, pd, i, j, Pte(v.mem, pd, i, j).frame);
    assert Pde(v.mem, pd, i).frame in v.role;
  }

  /** The page behind entry `j` of table `t` is copied to the frame allocated, or to frame 0. */
  ghost function Copied(v: Vm, t: nat, j: nat, w: Word): Vm
    requires |v.mem| == |v.bits| == |v.refs| && (forall f :: 0 <= f < |v.mem| ==> |v.mem[f]| == ENTRIES)
    requires t < |v.mem| && j < ENTRIES && w.frame < |v.mem|
  {
    var g := FirstFree(v.bits);
    v.(mem := SetCell(v.mem[g := v.mem[w.frame]], t, j, w.(frame := g, writable := true, cow := false)),
       bits := if g == 0 then v.bits else v.bits[g := true],
       refs := if g == 0 then v.refs else v.refs[g := 1])
  }

  /** The effect of hal_vmm_handle_cow: the count is raised, then compared; the copy goes to the
      frame allocated, or to frame 0 when there is none. */
  ghost function CowStep(v: Vm, pd: nat, i: nat, j: nat): Vm {
    if !CowReady(v, pd, i, j) then v else
    var t, w := Pde(v.mem, pd, i).frame, Pte(v.mem, pd, i, j);
    var n := (v.refs[w.frame] + 1) % REFS;
    if n > 1 then
      Copied(v, t, j, w)
    else
      v.(mem := SetCell(v.mem, t, j, w.(writable := true, cow := false)), refs := v.refs[w.frame := n])
  }

  lemma RaiseLower(refs: seq<nat>, f: nat, g: nat)
    requires f < |refs| && g < |refs| && f != g && refs[f] > 0
    ensures refs[g := 1][f := refs[f] - 1] == refs[f := refs[f] - 1][g := 1]
  {
  }

  lemma CowWraps(v: Vm, pd: nat, i: nat, j: nat)
    requires Inv(v) && pd in v.spaces && i < KERNEL_PD && j < ENTRIES && Pte(v.mem, pd, i, j).cow
    requires Pte(v.mem, pd, i, j).frame < |v.refs| && v.refs[Pte(v.mem, pd, i, j).frame] == REFS - 1
    ensures !Inv(CowStep(v, pd, i, j))
  {
    CowBounds(v, pd, i, j);
    var w, v' := Pte(v.mem, pd, i, j), CowStep(v, pd, i, j);
    SetPte(v, pd, i, j, w.(writable := true, cow := false));
    assert UserMaps(v'.mem, pd, i, j, w.frame);
    BrokenBy(v', pd, i, j, w.frame);
  }

  lemma CowNoFrame(v: Vm, pd: nat, i: nat, j: nat)
    requires Inv(v) && pd in v.spaces && i < KERNEL_PD && j < ENTRIES && Pte(v.mem, pd, i, j).cow
    requires Pte(v.mem, pd, i, j).frame < |v.refs|
    requires FirstFree(v.bits) == 0 && 1 <= v.refs[Pte(v.mem, pd, i, j).frame] < REFS - 1
    ensures !Inv(CowStep(v, pd, i, j))
  {
    CowBounds(v, pd, i, j);
    var t, w, v' := Pde(v.mem, pd, i).frame, Pte(v.mem, pd, i, j), CowStep(v, pd, i, j);
    var mem1 := v.mem[0 := v.mem[w.frame]];
    assert 0 !in v.role;
    SetData(v, 0, v.mem[w.frame]);
    SetPte(v.(mem := mem1), pd, i, j, w.(frame := 0, writable := true, cow := false));
    assert UserMaps(v'.mem, pd, i, j, 0);
    BrokenBy(v', pd, i, j, 0);
  }

  lemma CowCopies(v: Vm, pd: nat, i: nat, j: nat)
    requires Inv(v) && pd in v.spaces && i < KERNEL_PD && j < ENTRIES && Pte(v.mem, pd, i, j).cow
    requires CanCopy(v, Pte(v.mem, pd, i, j).frame) && 1 <= v.refs[Pte(v.mem, pd, i, j).frame]
    ensures var v' := CowStep(v, pd, i, j);
      && Inv(v') && ViewsSame(v.spaces, v.mem, v'.mem)
      && Pte(v'.mem, pd, i, j) == Pte(v.mem, pd, i, j).(frame := FirstFree(v.bits), writable := true, cow := false)
  {
    CowBounds(v, pd, i, j);
    var w, g := Pte(v.mem, pd, i, j), FirstFree(v.bits);
    CopiedInv(v, CowStep(v, pd, i, j), pd, i, j, g, w.(frame := g, writable := true, cow := false));
  }

  /** A copy-on-write fault keeps the invariant exactly when the frame can be copied; then no
      space sees any page change and the faulting page becomes privately writable. */
  lemma CowStepSound(v: Vm, pd: nat, i: nat, j: nat)
    requires Inv(v) && pd in v.spaces && i < KERNEL_PD && j < ENTRIES && Pte(v.mem, pd, i, j).cow
    ensures Pte(v.mem, pd, i, j).frame < |v.refs| <= 0x10_0000
    ensures v.refs[Pte(v.mem, pd, i, j).frame] < REFS ==>
      var v' := CowStep(v, pd, i, j);
      && (Inv(v') <==> CanCopy(v, Pte(v.mem, pd, i, j).frame))
      && (Inv(v') ==>
        ViewsSame(v.spaces, v.mem, v'.mem) && Pte(v'.mem, pd, i, j).writable && !Pte(v'.mem, pd, i, j).cow)
  {
    CowBounds(v, pd, i, j);
    var f := Pte(v.mem, pd, i, j).frame;
    assert pd in Sharers(v, f);
    SubsetSize({pd}, Sharers(v, f));
    if v.refs[f] < REFS {
      if v.refs[f] == REFS - 1 {
        CowWraps(v, pd, i, j);
      } else if FirstFree(v.bits) == 0 {
        CowNoFrame(v, pd, i, j);
      } else {
        CowCopies(v, pd, i, j);
      }
    }
  }

  /** get_pd_index and get_pt_index. */
  function PdIndex(va: nat): nat {
    va / LARGE
  }

  function PtIndex(va: nat): nat {
    va / PAGE % ENTRIES
  }

  class Machine {
    const pmm: FrameAllocator
    const kernel: nat
    var mem: Memory
    ghost var spaces: set<nat>
    ghost var role: map<nat, Role>

    constructor (pmm: FrameAllocator, mem: Memory, kernel: nat, ghost role: map<nat, Role>)
      ensures this.pmm == pmm && this.mem == mem && this.kernel == kernel
      ensures this.spaces == {kernel} && this.role == role
    {
      this.pmm, this.mem, this.kernel, this.role := pmm, mem, kernel, role;
      spaces := {kernel};
    }

    ghost function V(): Vm
      reads this, pmm
    {
      Vm(mem, pmm.bits, pmm.refs, spaces, kernel, role)
    }

    ghost predicate Ok()
      reads this, pmm
    {
      pmm.Valid() && Inv(V())
    }

    /** The entry of a user address, as get_pte_ptr and a read through it give it. */
    ghost function Entry(pd: nat, va: nat): Word
      reads this
    {
      Pte(mem, pd, PdIndex(va), PtIndex(va))
    }

    /** pmm_frame_alloc, by frame number; 0 when no frame is free. */
    method AllocFrame() returns (g: nat)
      requires pmm.Valid()
      modifies pmm
      ensures pmm.Valid() && g == FirstFree(old(pmm.bits)) && (g != 0 ==> g < |old(pmm.bits)| && !old(pmm.bits)[g])
      ensures V() == if g == 0 then old(V())
        else old(V()).(bits := old(pmm.bits)[g := true], refs := old(pmm.refs)[g := 1])
    {
      var addr := pmm.FrameAlloc();
      g := addr / PAGE;
      FirstFreeIs(old(pmm.bits), g);
    }

    /** hal_vmm_handle_cow. */
    method HandleCow(pd: nat, va: nat) returns (resolved: bool)
      requires Ok() && pd in spaces && va < KERNEL_BASE
      modifies this`mem, pmm
      ensures pmm.Valid() && resolved == old(Entry(pd, va)).cow
      ensures V() == if resolved then CowStep(old(V()), pd, PdIndex(va), PtIndex(va)) else old(V())
    {
      var i, j := PdIndex(va), PtIndex(va);
      if !Cell(mem, pd, i).present { return false; }
      var t := Cell(mem, pd, i).frame;
      var w := Cell(mem, t, j);
      if !w.cow { return false; }
      CowBounds(V(), pd, i, j);
      Resolve(pd, i, j, t, w);
      return true;
    }

    /** The part of the handler after the entry was found to be copy-on-write. */
    method Resolve(pd: nat, i: nat, j: nat, t: nat, w: Word)
      requires pmm.Valid() && CowReady(V(), pd, i, j) && t == Pde(mem, pd, i).frame && w == Pte(mem, pd, i, j)
      modifies this`mem, pmm
      ensures pmm.Valid() && V() == CowStep(old(V()), pd, i, j)
    {
      pmm.RefInc(w.frame * PAGE);
      var n := pmm.RefGet(w.frame * PAGE);
      if n > 1 {
        assert pmm.refs[w.frame := n - 1] == old(pmm.refs);
        CopyOut(j, t, w);
      } else {
        mem := SetCell(mem, t, j, Promote(w, w.frame));
      }
    }

    /** The copying branch: a new frame for this space, one reference less on the old one. */
    method CopyOut(j: nat, t: nat, w: Word)
      requires pmm.Valid() && |mem| == |pmm.bits| && t < |mem| && j < |mem[t]| == ENTRIES && 1 <= w.frame < |mem|
      requires (forall f :: 0 <= f < |mem| ==> |mem[f]| == ENTRIES) && pmm.bits[w.frame] && pmm.refs[w.frame] > 1
      modifies this`mem, pmm
      ensures pmm.Valid()
      ensures V() == Copied(old(V()).(refs := old(pmm.refs)[w.frame := old(pmm.refs)[w.frame] - 1]), t, j, w)
    {
      var g := AllocFrame();
      mem := mem[g := mem[w.frame]];
      mem := SetCell(mem, t, j, Promote(w, g));
      RaiseLower(old(pmm.refs), w.frame, g);
      pmm.FrameFree(w.frame * PAGE);
    }
  }
}
