/** Whole runs: processes that fork, exit, load, store, grow and release memory, and kernel pages
    that are mapped and unmapped through any of them, against the specification in which every
    process has a memory of its own and all see one kernel. */
module VmmRun {
  import opened Common
  import opened PteBits
  import opened PageTables
  import opened Pmm
  import opened Bitmap
  import opened Vmm
  import opened VmmMap
  import opened VmmUnmap
  import opened VmmRegion
  import opened VmmGrow
  import opened VmmFork
  import opened VmmSpace

  datatype Event =
    | Fork(parent: nat, child: nat)
    | Exit(p: nat)
    | Load(p: nat, i: nat, j: nat, k: nat)
    | Write(p: nat, i: nat, j: nat, k: nat, w: Word)
    | Grow(p: nat, first: nat, count: nat, writable: bool)
    | Release(p: nat, first: nat, count: nat)
    | KMap(p: nat, frame: nat, first: nat, count: nat, writable: bool)
    | KUnmap(p: nat, first: nat, count: nat)

  datatype Output = Refused | Done | Failed | Value(w: Word)

  /** The specification state: the live processes, the pages of each, what each sees of the kernel's
      pages, and the rows of each in which new pages are for the kernel only. */
  datatype World = World(live: set<nat>, pages: map<(nat, nat, nat), Page>, kernel: map<(nat, nat, nat), Word>,
    closed: set<(nat, nat)>)

  function At(s: World, p: nat, i: nat, j: nat): Option<Page> {
    if (p, i, j) in s.pages then Some(s.pages[(p, i, j)]) else None
  }

  function KernelAt(s: World, p: nat, i: nat, j: nat): Word {
    if (p, i, j) in s.kernel then s.kernel[(p, i, j)] else ZERO
  }

  predicate InRange(i: nat, j: nat, first: nat, count: nat) {
    first <= i * ENTRIES + j < first + count
  }

  /** What an event may name: a live process, a new one, user addresses. */
  predicate Legal(e: Event, live: set<nat>) {
    match e
    case Fork(p, c) => p in live && c !in live
    case Exit(p) => p in live
    case Load(p, i, j, k) => p in live && i < KERNEL_PD && j < ENTRIES && k < ENTRIES
    case Write(p, i, j, k, _) => p in live && i < KERNEL_PD && j < ENTRIES && k < ENTRIES
    case Grow(p, first, count, _) => p in live && first + count <= KERNEL_PAGE
    case Release(p, first, count) => p in live && first + count <= KERNEL_PAGE
    case KMap(p, _, first, count, _) => p in live && KERNEL_PAGE <= first < PAGES && count <= PAGES
    case KUnmap(p, first, count) =>
      p in live && KERNEL_PAGE <= first < PAGES && count <= PAGES && KeepsKernelTables(first, count)
  }

  function LiveAfter(e: Event, live: set<nat>): set<nat> {
    match e
    case Fork(_, c) => live + {c}
    case Exit(p) => live - {p}
    case _ => live
  }

  /** Page (i, j) of process `q` after an event, in a world where no memory is shared. The pages of a
      growth that fails are gone up to `limit`, where the frames ended. */
  ghost predicate PageStep(s: World, e: Event, s': World, o: Output, limit: nat, q: nat, i: nat, j: nat) {
    var before, after := At(s, q, i, j), At(s', q, i, j);
    match e
    case Fork(p, c) => after == if q == c then At(s, p, i, j) else before
    case Write(p, a, b, k, w) =>
      if o == Done && q == p && i == a && j == b
      then
        && before.Some? && before.value.writable && k < |before.value.content|
        && after == Some(before.value.(content := before.value.content[k := w]))
      else after == before
    case Grow(p, first, count, writable) =>
      if q != p || !(first <= i * ENTRIES + j < limit) then after == before
      else if o == Done then
        && after.Some? && after.value.writable == writable && |after.value.content| == ENTRIES
        && after.value.user == ((q, i) !in s.closed)
      else after == None
    case Release(p, first, count) => after == if q == p && InRange(i, j, first, count) then None else before
    case _ => after == before
  }

  /** Kernel page (i, j) as process `q` sees it after an event. A range that reaches the top of the
      address space is not mapped or unmapped at all. */
  ghost predicate KernelStep(s: World, e: Event, s': World, q: nat, i: nat, j: nat) {
    var before, after := KernelAt(s, q, i, j), KernelAt(s', q, i, j);
    match e
    case Fork(p, c) => after == if q == c then KernelAt(s, p, i, j) else before
    case KMap(_, frame, first, count, writable) =>
      after == if first + count < PAGES && InRange(i, j, first, count)
        then Leaf(frame + (i * ENTRIES + j - first), writable, false) else before
    case KUnmap(_, first, count) =>
      if first + count < PAGES && InRange(i, j, first, count) then Cleared(before, after) else after == before
    case _ => after == before
  }

  /** Row `i` of process `q` after an event: it keeps its table until all its pages are released. */
  ghost predicate RowStep(s: World, e: Event, s': World, q: nat, i: nat) {
    var before, after := (q, i) in s.closed, (q, i) in s'.closed;
    match e
    case Fork(p, c) => after == if q == c then (p, i) in s.closed else before
    case Release(p, first, count) => after == (before && !(q == p && Whole(i, first, first + count)))
    case _ => after == before
  }

  /** What an event returns. */
  ghost predicate Returns(s: World, e: Event, o: Output, limit: nat) {
    match e
    case Load(p, i, j, k) =>
      var page := At(s, p, i, j);
      o == if page.Some? && page.value.user && k < |page.value.content| then Value(page.value.content[k]) else Failed
    case Write(p, i, j, _, _) =>
      var page := At(s, p, i, j);
      o == if page.Some? && page.value.user && page.value.writable then Done else Failed
    case Grow(_, first, count, _) => o == if limit == first + count then Done else Failed
    case _ => o == Done
  }

  ghost predicate PagesStep(s: World, e: Event, s': World, o: Output, limit: nat) {
    forall q: nat, i: nat, j: nat :: q in s'.live && i < KERNEL_PD && j < ENTRIES ==>
      PageStep(s, e, s', o, limit, q, i, j)
  }

  ghost predicate KernelsStep(s: World, e: Event, s': World) {
    forall q: nat, i: nat, j: nat :: q in s'.live && KERNEL_PD <= i < ENTRIES && j < ENTRIES ==>
      KernelStep(s, e, s', q, i, j)
  }

  ghost predicate RowsStep(s: World, e: Event, s': World) {
    forall q: nat, i: nat :: q in s'.live && i < KERNEL_PD ==> RowStep(s, e, s', q, i)
  }

  ghost predicate Step(s: World, e: Event, s': World, o: Output, limit: nat) {
    && s'.live == LiveAfter(e, s.live) && Returns(s, e, o, limit)
    && PagesStep(s, e, s', o, limit) && KernelsStep(s, e, s') && RowsStep(s, e, s')
  }

  /** All processes see the same kernel. */
  ghost predicate OneKernel(s: World) {
    forall q: nat, q': nat, i: nat, j: nat :: q in s.live && q' in s.live && KERNEL_PD <= i < ENTRIES && j < ENTRIES ==>
      KernelAt(s, q, i, j) == KernelAt(s, q', i, j)
  }

  /** The directory of each process. */
  type Table = map<nat, nat>

  ghost predicate TableOk(v: Vm, t: Table) {
    && (forall p :: p in t ==> t[p] in v.spaces && t[p] != v.kernel)
    && (forall p, q :: p in t && q in t && t[p] == t[q] ==> p == q)
    && EmptyUser(v.mem, v.kernel)
  }

  ghost function UserPages(mem: Memory, t: Table): map<(nat, nat, nat), Page> {
    map p, i, j | p in t && 0 <= i < KERNEL_PD && 0 <= j < ENTRIES && PageAt(mem, t[p], i, j).Some? ::
      (p, i, j) := PageAt(mem, t[p], i, j).value
  }

  ghost function KernelPages(mem: Memory, t: Table): map<(nat, nat, nat), Word> {
    map p, i, j | p in t && KERNEL_PD <= i < ENTRIES && 0 <= j < ENTRIES && KernelWord(mem, t[p], i, j) != ZERO ::
      (p, i, j) := KernelWord(mem, t[p], i, j)
  }

  /** The specification state a machine stands for. */
  ghost function WorldOf(mem: Memory, t: Table): World {
    World(t.Keys, UserPages(mem, t), KernelPages(mem, t), ClosedRows(mem, t))
  }

  ghost function ClosedRows(mem: Memory, t: Table): set<(nat, nat)> {
    set p: nat, i: nat | p in t && i < KERNEL_PD && Closed(mem, t[p], i) :: (p, i)
  }

  lemma WorldAt(mem: Memory, t: Table)
    ensures WorldOf(mem, t).live == t.Keys
    ensures forall p: nat, i: nat, j: nat :: p in t && i < KERNEL_PD && j < ENTRIES ==>
      At(WorldOf(mem, t), p, i, j) == PageAt(mem, t[p], i, j)
    ensures forall p: nat, i: nat, j: nat :: p in t && KERNEL_PD <= i < ENTRIES && j < ENTRIES ==>
      KernelAt(WorldOf(mem, t), p, i, j) == KernelWord(mem, t[p], i, j)
    ensures forall p: nat, i: nat :: p in t && i < KERNEL_PD ==>
      ((p, i) in WorldOf(mem, t).closed <==> Closed(mem, t[p], i))
  {
    hide Pte, PageAt, KernelWord, Closed;
    forall p: nat, i: nat, j: nat | p in t && i < KERNEL_PD && j < ENTRIES
      ensures At(WorldOf(mem, t), p, i, j) == PageAt(mem, t[p], i, j) {
      UserPageAt(mem, t, p, i, j);
    }
    forall p: nat, i: nat, j: nat | p in t && KERNEL_PD <= i < ENTRIES && j < ENTRIES
      ensures KernelAt(WorldOf(mem, t), p, i, j) == KernelWord(mem, t[p], i, j) {
      KernelPageAt(mem, t, p, i, j);
    }
  }

  lemma UserPageAt(mem: Memory, t: Table, p: nat, i: nat, j: nat)
    requires p in t && i < KERNEL_PD && j < ENTRIES
    ensures (p, i, j) in UserPages(mem, t) <==> PageAt(mem, t[p], i, j).Some?
    ensures (p, i, j) in UserPages(mem, t) ==> UserPages(mem, t)[(p, i, j)] == PageAt(mem, t[p], i, j).value
  {
    hide Pte, PageAt, KernelWord;
  }

  lemma KernelPageAt(mem: Memory, t: Table, p: nat, i: nat, j: nat)
    requires p in t && KERNEL_PD <= i < ENTRIES && j < ENTRIES
    ensures (p, i, j) in KernelPages(mem, t) <==> KernelWord(mem, t[p], i, j) != ZERO
    ensures (p, i, j) in KernelPages(mem, t) ==> KernelPages(mem, t)[(p, i, j)] == KernelWord(mem, t[p], i, j)
  {
    hide Pte, PageAt, KernelWord;
  }

  /** An event during which no table of a process appears that is for the kernel only, or goes. */
  lemma ClosedKept(mem: Memory, t: Table, mem': Memory, t': Table, e: Event)
    requires !e.Fork? && !e.Release? && forall p :: p in t' ==> p in t && t'[p] == t[p]
    requires forall p, a: nat :: p in t' && a < KERNEL_PD ==> (Closed(mem', t'[p], a) <==> Closed(mem, t'[p], a))
    ensures RowsStep(WorldOf(mem, t), e, WorldOf(mem', t'))
  {
    hide WorldOf, Closed;
    WorldAt(mem, t);
    WorldAt(mem', t');
  }

  /** Every process sees the kernel's own entries. */
  lemma KernelSeen(v: Vm, t: Table)
    requires Inv(v) && TableOk(v, t)
    ensures OneKernel(WorldOf(v.mem, t))
    ensures forall p, i: nat, j: nat :: p in t && KERNEL_PD <= i < ENTRIES ==>
      Pte(v.mem, t[p], i, j) == Pte(v.mem, v.kernel, i, j)
      && KernelWord(v.mem, t[p], i, j) == KernelWord(v.mem, v.kernel, i, j)
  {
    hide WorldOf, Tabled, DataOk, Exclusive, Counted, Shape;
    WorldAt(v.mem, t);
    forall p, i: nat, j: nat | p in t && KERNEL_PD <= i < ENTRIES
      ensures Pte(v.mem, t[p], i, j) == Pte(v.mem, v.kernel, i, j)
        && KernelWord(v.mem, t[p], i, j) == KernelWord(v.mem, v.kernel, i, j) {
      assert Pde(v.mem, t[p], i) == Pde(v.mem, v.kernel, i);
    }
  }

  /** An event during which the kernel's entries stay leaves every process its view of them. */
  lemma KernelKept(v: Vm, t: Table, v': Vm, t': Table, e: Event)
    requires Inv(v) && Inv(v') && TableOk(v, t) && TableOk(v', t') && v'.kernel == v.kernel
    requires KernelSame(v.mem, v'.mem, v.kernel)
    requires t'.Keys <= LiveAfter(e, t.Keys) && !e.KMap? && !e.KUnmap? && (e.Fork? ==> e.parent in t && e.child !in t)
    ensures KernelsStep(WorldOf(v.mem, t), e, WorldOf(v'.mem, t'))
  {
    hide WorldOf, Inv, TableOk, Pte, OneKernel;
    WorldAt(v.mem, t);
    WorldAt(v'.mem, t');
    KernelSeen(v, t);
    KernelSeen(v', t');
    var s, s' := WorldOf(v.mem, t), WorldOf(v'.mem, t');
    forall q: nat, i: nat, j: nat | q in s'.live && KERNEL_PD <= i < ENTRIES && j < ENTRIES
      ensures KernelStep(s, e, s', q, i, j) {
      assert KernelAt(s', q, i, j) == KernelWord(v'.mem, v'.kernel, i, j) == KernelWord(v.mem, v.kernel, i, j);
    }
  }

  /** A machine with its process table. */
  datatype Snap = Snap(v: Vm, t: Table)

  /** What the code needs to be sound: for a fork a frame for the directory and for each table, and no
      16-bit count at its limit; for an access that faults on a copy-on-write page that the page can be copied. */
  ghost predicate Ready(v: Vm, t: Table, e: Event)
    requires |v.bits| == |v.refs|
  {
    match e
    case Fork(p, _) => p in t && |FreeSet(v.bits)| > |ToCopy(v.mem, t[p], 0)| && RefsLow(v, t[p])
    case Load(p, i, j, _) => p in t && Copyable(v, t[p], i, j, false)
    case Write(p, i, j, _, _) => p in t && Copyable(v, t[p], i, j, true)
    case _ => true
  }

  /** If the access faults on a copy-on-write page, the page can be copied. */
  ghost predicate Copyable(v: Vm, pd: nat, i: nat, j: nat, write: bool)
    requires |v.bits| == |v.refs|
  {
    Faults(v.mem, pd, i, j, write) ==> CanCopy(v, Pte(v.mem, pd, i, j).frame)
  }

  /** How far the frames reach for a growth. */
  ghost predicate Limit(v: Vm, t: Table, e: Event, limit: nat) {
    match e
    case Grow(p, first, count, _) =>
      && p in t && first <= limit <= first + count && Affords(v, t[p], first, limit, 1)
      && (limit < first + count ==> !Affords(v, t[p], first, limit + 1, 1))
    case _ => limit == 0
  }

  /** What a fork of `src` does to the frames: one is taken for the directory and one for each table,
      and those in use have one reference more if `src` maps them. */
  ghost predicate Forked(v: Vm, src: nat, v': Vm) {
    && |v'.bits| == |v'.refs| == |v.bits| == |v.refs|
    && |FreeSet(v'.bits)| + |ToCopy(v.mem, src, 0)| + 1 == |FreeSet(v.bits)|
    && (forall f :: 0 <= f < |v.bits| && v.bits[f] ==>
      v'.bits[f] && v'.refs[f] == v.refs[f] + if MapsIn(v.mem, src, f) then 1 else 0)
  }

  /** The frames behind pages lo..hi lost a reference and the tables that lay wholly in them are free. */
  ghost predicate LetGo(v: Vm, v': Vm, pd: nat, lo: nat, hi: nat) {
    exists mid ::
      Released(v, mid, pd, lo, hi) && Unmapped(mid, v', pd, lo, hi) && RowsGone(mid, v', pd, lo, hi)
  }

  /** The frames an event takes and gives back. */
  ghost predicate Frames(v: Vm, t: Table, e: Event, v': Vm, limit: nat) {
    match e
    case Fork(p, _) => p in t && Forked(v, t[p], v')
    case Exit(p) => p in t && GaveUp(v, v', Belongings(v.mem, t[p]))
    case Load(p, i, j, _) =>
      p in t && if Faults(v.mem, t[p], i, j, false) then CopyTaken(v, v', true) else v' == v
    case Write(p, i, j, _, _) => p in t && CopyTaken(v, v', Pte(v.mem, t[p], i, j).cow)
    case Grow(p, first, count, writable) =>
      p in t && Growth(v, v', t[p], first, if limit == first + count then first else limit, limit, writable, true)
    case Release(p, first, count) =>
      p in t && LetGo(v, v', t[p], first, first + count)
    case KMap(_, _, _, _, _) => v'.bits == v.bits && v'.refs == v.refs
    case KUnmap(_, _, _) => v'.bits == v.bits && v'.refs == v.refs
  }

  /** Fork: a new space, then the copy-on-write clone. */
  method DoFork(m: Machine, t: Table, p: nat, c: nat) returns (t': Table)
    requires m.Ok() && TableOk(m.V(), t) && p in t && c !in t && |m.pmm.bits| == |m.pmm.refs|
    requires Ready(m.V(), t, Fork(p, c))
    modifies m`mem, m`role, m`spaces, m.pmm
    ensures m.Ok() && TableOk(m.V(), t') && Step(WorldOf(old(m.mem), t), Fork(p, c), WorldOf(m.mem, t'), Done, 0)
    ensures Frames(old(m.V()), t, Fork(p, c), m.V(), 0)
  {
    hide Inv, WorldOf, ViewsSame, EmptyUser, KernelSame, FreeSet, RefsLow, PagesStep, KernelsStep, ToCopy, Recounted,
      Broken, DirsSame, RowsCopied;
    ghost var v := m.V();
    Known(v);
    assert FreeSet(v.bits) != {};
    var ok, pd := CreateSpace(m);
    ghost var v1 := m.V();
    ForkReady(v, v1, t[p], pd);
    Clone(m, pd, t[p]);
    t' := t[c := pd];
    ForkStep(v, v1, m.V(), t, p, c, pd);
    KernelSameTrans(v.mem, v1.mem, m.mem, v.kernel);
    KernelKept(v, t, m.V(), t', Fork(p, c));
    ForkFrames(v, v1, m.V(), t[p], pd);
    assert WorldOf(v.mem, t).live == t.Keys
      && WorldOf(m.mem, t').live == t'.Keys by { WorldAt(v.mem, t); WorldAt(m.mem, t'); }
  }

  lemma KernelSameTrans(a: Memory, b: Memory, c: Memory, pd: nat)
    requires KernelSame(a, b, pd) && KernelSame(b, c, pd)
    ensures KernelSame(a, c, pd)
  {
  }

  lemma ForkReady(v: Vm, v1: Vm, src: nat, pd: nat)
    requires Inv(v) && src in v.spaces && EmptyUser(v.mem, v.kernel) && |FreeSet(v.bits)| > |ToCopy(v.mem, src, 0)|
    requires RefsLow(v, src)
    requires pd == FirstFree(v.bits) != 0 && pd < |v.mem| && v.kernel < |v.mem| && |v.mem| == |v.bits| == |v.refs|
    requires v1 == WithSpace(v, pd)
    ensures RefsLow(v1, src) && |FreeSet(v1.bits)| >= |ToCopy(v1.mem, src, 0)|
    ensures src in v1.spaces && pd in v1.spaces && pd !in v.spaces && src != pd && pd != v1.kernel
    ensures EmptyUser(v1.mem, v.kernel) && KernelSame(v.mem, v1.mem, v.kernel) && DirsSame(v.spaces, v.mem, v1.mem)
  {
    hide Tabled, KernelHalf, DataOk, Exclusive, Counted;
    assert pd in FreeSet(v.bits);
    TakeOne(v.bits);
    WithSpaceTables(v, pd);
    WithSpaceSharers(v, pd);
    assert ToCopy(v1.mem, src, 0) == ToCopy(v.mem, src, 0);
    forall f | 0 <= f < |v1.refs| && MapsIn(v1.mem, src, f) ensures v1.refs[f] < REFS - 1 {
      var a: nat, b: nat :| UserMaps(v1.mem, src, a, b, f);
      assert UserMaps(v.mem, src, a, b, f);
    }
  }

  lemma ForkFrames(v: Vm, v1: Vm, v2: Vm, src: nat, pd: nat)
    requires Inv(v) && src in v.spaces && EmptyUser(v.mem, v.kernel) && RefsLow(v, src) && FreeSet(v.bits) != {}
    requires forall f :: 0 <= f < |v.refs| ==> v.refs[f] < REFS
    requires pd == FirstFree(v.bits) != 0 && pd < |v.mem| && v.kernel < |v.mem| && |v.mem| == |v.bits| == |v.refs|
    requires v1 == WithSpace(v, pd)
    requires |v2.bits| == |v2.refs| == |v1.bits| == |v1.refs|
    requires |FreeSet(v2.bits)| == |FreeSet(v1.bits)| - |ToCopy(v1.mem, src, 0)|
    requires forall f :: 0 <= f < |v1.bits| && v1.bits[f] ==> v2.bits[f] && v2.refs[f] == Recounted(v1, src, f)
    ensures Forked(v, src, v2)
  {
    hide Tabled, KernelHalf, DataOk, Exclusive, Counted;
    TakeOne(v.bits);
    assert pd in FreeSet(v.bits);
    WithSpaceTables(v, pd);
    assert ToCopy(v1.mem, src, 0) == ToCopy(v.mem, src, 0);
    forall f | 0 <= f < |v.bits| && v.bits[f] ensures v2.bits[f] && v2.refs[f] == v.refs[f] + if MapsIn(v.mem, src, f)
      then 1 else 0 {
      SameMaps(v.mem, v1.mem, src, f);
    }
  }

  lemma SameMaps(mem: Memory, mem': Memory, pd: nat, f: nat)
    requires forall a: nat, b: nat :: a < KERNEL_PD ==> Pte(mem', pd, a, b) == Pte(mem, pd, a, b)
    ensures MapsIn(mem', pd, f) <==> MapsIn(mem, pd, f)
  {
    if MapsIn(mem, pd, f) {
      var a: nat, b: nat :| UserMaps(mem, pd, a, b, f);
      assert UserMaps(mem', pd, a, b, f);
    }
    if MapsIn(mem', pd, f) {
      var a: nat, b: nat :| UserMaps(mem', pd, a, b, f);
      assert UserMaps(mem, pd, a, b, f);
    }
  }

  lemma ForkStep(v: Vm, v1: Vm, v2: Vm, t: Table, p: nat, c: nat, pd: nat)
    requires TableOk(v, t) && p in t && c !in t && pd !in v.spaces && v.kernel in v.spaces
    requires v1.spaces == v2.spaces == v.spaces + {pd} && v2.kernel == v1.kernel == v.kernel
    requires ViewsSame(v.spaces, v.mem, v1.mem) && ViewsSame(v1.spaces - {pd}, v1.mem, v2.mem)
    requires forall a: nat, b: nat :: a < KERNEL_PD && b < ENTRIES ==>
      PageAt(v2.mem, pd, a, b) == PageAt(v1.mem, t[p], a, b)
    requires EmptyUser(v1.mem, v.kernel) && KernelSame(v1.mem, v2.mem, v.kernel)
    requires DirsSame(v.spaces, v.mem, v1.mem) && DirsSame(v1.spaces - {pd}, v1.mem, v2.mem)
    requires RowsCopied(v1.mem, t[p], v2.mem, pd)
    ensures TableOk(v2, t[c := pd]) && PagesStep(WorldOf(v.mem, t), Fork(p, c), WorldOf(v2.mem, t[c := pd]), Done, 0)
    ensures RowsStep(WorldOf(v.mem, t), Fork(p, c), WorldOf(v2.mem, t[c := pd]))
  {
    hide WorldOf;
    WorldAt(v.mem, t);
    WorldAt(v2.mem, t[c := pd]);
    var s, s' := WorldOf(v.mem, t), WorldOf(v2.mem, t[c := pd]);
    forall q: nat, i: nat, j: nat | q in s'.live && i < KERNEL_PD && j < ENTRIES
      ensures PageStep(s, Fork(p, c), s', Done, 0, q, i, j) {
      assert q != c ==> t[q] in v1.spaces - {pd};
    }
  }

  method DoExit(m: Machine, t: Table, p: nat) returns (t': Table)
    requires m.Ok() && TableOk(m.V(), t) && p in t
    modifies m`role, m`spaces, m.pmm
    ensures m.Ok() && TableOk(m.V(), t') && Step(WorldOf(old(m.mem), t), Exit(p), WorldOf(m.mem, t'), Done, 0)
    ensures Frames(old(m.V()), t, Exit(p), m.V(), 0)
  {
    hide Inv, WorldOf, GaveUp, KernelsStep, PagesStep;
    ghost var v := m.V();
    DestroySpace(m, t[p]);
    t' := map q | q in t && q != p :: t[q];
    ExitStep(v, m.V(), t, t', p);
    ClosedKept(v.mem, t, m.mem, t', Exit(p));
    KernelKept(v, t, m.V(), t', Exit(p));
  }

  lemma ExitStep(v: Vm, v': Vm, t: Table, t': Table, p: nat)
    requires TableOk(v, t) && p in t && v'.mem == v.mem && v'.spaces == v.spaces - {t[p]} && v'.kernel == v.kernel
    requires t' == map q | q in t && q != p :: t[q]
    ensures TableOk(v', t') && t'.Keys == t.Keys - {p}
    ensures PagesStep(WorldOf(v.mem, t), Exit(p), WorldOf(v'.mem, t'), Done, 0)
    ensures WorldOf(v'.mem, t').live == LiveAfter(Exit(p), WorldOf(v.mem, t).live)
  {
    hide WorldOf;
    WorldAt(v.mem, t);
    WorldAt(v'.mem, t');
    assert t'.Keys == t.Keys - {p};
  }

  method DoLoad(m: Machine, t: Table, p: nat, i: nat, j: nat, k: nat) returns (o: Output)
    requires m.Ok() && TableOk(m.V(), t) && Legal(Load(p, i, j, k), t.Keys) && |m.pmm.bits| == |m.pmm.refs|
    requires Ready(m.V(), t, Load(p, i, j, k))
    modifies m`mem, m.pmm
    ensures m.Ok() && TableOk(m.V(), t) && Step(WorldOf(old(m.mem), t), Load(p, i, j, k), WorldOf(m.mem, t), o, 0)
    ensures Frames(old(m.V()), t, Load(p, i, j, k), m.V(), 0)
  {
    hide Inv, WorldOf, KernelSame, EmptyUser, CanCopy, KernelsStep, PagesStep, DirsSame, ViewsSame, PageAt, RowsStep;
    ghost var v := m.V();
    Known(v);
    var ok := Access(m, t[p], i, j, false);
    PageSized(m.V(), t[p], i, j);
    o := if ok then Value(m.mem[Pte(m.mem, t[p], i, j).frame][k]) else Failed;
    SameDirs(v, m.V(), t);
    ClosedKept(v.mem, t, m.mem, t, Load(p, i, j, k));
    LoadStep(v, m.V(), t, p, i, j, k, o);
    KernelKept(v, t, m.V(), t, Load(p, i, j, k));
    assert WorldOf(v.mem, t).live == t.Keys
      && WorldOf(m.mem, t).live == t.Keys by { WorldAt(v.mem, t); WorldAt(m.mem, t); }
  }

  lemma SameDirs(v: Vm, v': Vm, t: Table)
    requires TableOk(v, t) && v.kernel in v.spaces && v'.spaces == v.spaces && v'.kernel == v.kernel
    requires DirsSame(v.spaces, v.mem, v'.mem)
    ensures TableOk(v', t)
    ensures forall p, a: nat :: p in t && a < KERNEL_PD ==> (Closed(v'.mem, t[p], a) <==> Closed(v.mem, t[p], a))
  {
    assert PdesSame(v.mem, v'.mem, v.kernel);
    forall p | p in t ensures PdesSame(v.mem, v'.mem, t[p]) {}
  }

  lemma LoadStep(v: Vm, v': Vm, t: Table, p: nat, i: nat, j: nat, k: nat, o: Output)
    requires TableOk(v, t) && Legal(Load(p, i, j, k), t.Keys) && ViewsSame(v.spaces, v.mem, v'.mem)
    requires var page := PageAt(v.mem, t[p], i, j);
      if page.Some? && page.value.user
      then
        && Pte(v'.mem, t[p], i, j).present && Pte(v'.mem, t[p], i, j).frame < |v'.mem|
        && |v'.mem[Pte(v'.mem, t[p], i, j).frame]| == ENTRIES
        && o == Value(v'.mem[Pte(v'.mem, t[p], i, j).frame][k])
      else o == Failed
    ensures PagesStep(WorldOf(v.mem, t), Load(p, i, j, k), WorldOf(v'.mem, t), o, 0)
    ensures Returns(WorldOf(v.mem, t), Load(p, i, j, k), o, 0)
  {
    hide WorldOf;
    WorldAt(v.mem, t);
    WorldAt(v'.mem, t);
    assert PageAt(v'.mem, t[p], i, j) == PageAt(v.mem, t[p], i, j);
  }

  lemma PageSized(v: Vm, pd: nat, i: nat, j: nat)
    requires Inv(v) && pd in v.spaces && i < KERNEL_PD && j < ENTRIES
    ensures Pte(v.mem, pd, i, j).present ==>
      Pte(v.mem, pd, i, j).frame < |v.mem| && |v.mem[Pte(v.mem, pd, i, j).frame]| == ENTRIES
  {
    if Pte(v.mem, pd, i, j).present { assert UserMaps(v.mem, pd, i, j, Pte(v.mem, pd, i, j).frame); }
  }

  method DoWrite(m: Machine, t: Table, p: nat, i: nat, j: nat, k: nat, w: Word) returns (o: Output)
    requires m.Ok() && TableOk(m.V(), t) && Legal(Write(p, i, j, k, w), t.Keys) && |m.pmm.bits| == |m.pmm.refs|
    requires Ready(m.V(), t, Write(p, i, j, k, w))
    modifies m`mem, m.pmm
    ensures m.Ok() && TableOk(m.V(), t) && Step(WorldOf(old(m.mem), t), Write(p, i, j, k, w), WorldOf(m.mem, t), o, 0)
    ensures Frames(old(m.V()), t, Write(p, i, j, k, w), m.V(), 0)
  {
    hide Inv, WorldOf, Stored, KernelSame, EmptyUser, CanCopy, KernelsStep, PagesStep, DirsSame, ViewsSame, RowsStep;
    ghost var v := m.V();
    Known(v);
    var ok := Store(m, t[p], i, j, k, w);
    o := if ok then Done else Failed;
    SameDirs(v, m.V(), t);
    ClosedKept(v.mem, t, m.mem, t, Write(p, i, j, k, w));
    WriteStep(v, m.V(), t, p, i, j, k, w, o);
    KernelKept(v, t, m.V(), t, Write(p, i, j, k, w));
    assert WorldOf(v.mem, t).live == t.Keys
      && WorldOf(m.mem, t).live == t.Keys by { WorldAt(v.mem, t); WorldAt(m.mem, t); }
  }

  lemma WriteStep(v: Vm, v': Vm, t: Table, p: nat, i: nat, j: nat, k: nat, w: Word, o: Output)
    requires TableOk(v, t) && Legal(Write(p, i, j, k, w), t.Keys) && v'.spaces == v.spaces && v'.kernel == v.kernel
    requires var page := PageAt(v.mem, t[p], i, j);
      o == if page.Some? && page.value.user && page.value.writable then Done else Failed
    requires if o == Done then Stored(v.spaces, v.mem, v'.mem, t[p], i, j, k, w) else ViewsSame(v.spaces, v.mem, v'.mem)
    ensures PagesStep(WorldOf(v.mem, t), Write(p, i, j, k, w), WorldOf(v'.mem, t), o, 0)
    ensures Returns(WorldOf(v.mem, t), Write(p, i, j, k, w), o, 0)
  {
    hide WorldOf;
    WorldAt(v.mem, t);
    WorldAt(v'.mem, t);
    var s, s', e := WorldOf(v.mem, t), WorldOf(v'.mem, t), Write(p, i, j, k, w);
    forall q: nat, a: nat, b: nat | q in s'.live && a < KERNEL_PD && b < ENTRIES
      ensures PageStep(s, e, s', o, 0, q, a, b) {
      assert o == Done ==> StoredAt(v.mem, v'.mem, t[p], i, j, k, w, t[q], a, b);
    }
  }

  method DoGrow(m: Machine, t: Table, p: nat, first: nat, count: nat, writable: bool)
    returns (o: Output, ghost limit: nat)
    requires m.Ok() && TableOk(m.V(), t) && Legal(Grow(p, first, count, writable), t.Keys)
    modifies m`mem, m`role, m.pmm
    ensures m.Ok() && TableOk(m.V(), t) && Limit(old(m.V()), t, Grow(p, first, count, writable), limit)
    ensures Step(WorldOf(old(m.mem), t), Grow(p, first, count, writable), WorldOf(m.mem, t), o, limit)
    ensures Frames(old(m.V()), t, Grow(p, first, count, writable), m.V(), limit)
  {
    hide Inv, WorldOf, HeldBy, GrownPtes, OthersSame, EmptyUser, Affords, KernelsStep, PagesStep, KernelSame;
    ghost var v := m.V();
    Known(v);
    var ok;
    ok, limit := AllocRegion(m, t[p], first, count, writable, true);
    o := if ok then Done else Failed;
    GrowWorld(v, m.V(), t, p, first, count, writable, if ok then first else limit, limit, o);
    GrowKernel(v, m.V(), t[p], first, if ok then first else limit, limit, writable);
    KernelKept(v, t, m.V(), t, Grow(p, first, count, writable));
    assert WorldOf(v.mem, t).live == t.Keys
      && WorldOf(m.mem, t).live == t.Keys by { WorldAt(v.mem, t); WorldAt(m.mem, t); }
  }

  lemma GrowKernel(v: Vm, v': Vm, pd: nat, lo: nat, mid: nat, hi: nat, writable: bool)
    requires Growth(v, v', pd, lo, mid, hi, writable, true) && hi <= KERNEL_PAGE && v.kernel in v.spaces
    requires pd != v.kernel
    ensures KernelSame(v.mem, v'.mem, v.kernel)
  {
    hide Inv, HeldBy;
  }

  lemma OthersEmpty(v: Vm, v': Vm, t: Table, pd: nat)
    requires TableOk(v, t) && v.kernel in v.spaces && v'.spaces == v.spaces && v'.kernel == v.kernel && pd != v.kernel
    requires OthersSame(v.spaces, v.mem, v'.mem, pd)
    ensures TableOk(v', t)
    ensures forall p, a: nat :: p in t && t[p] != pd && a < KERNEL_PD ==>
      (Closed(v'.mem, t[p], a) <==> Closed(v.mem, t[p], a))
  {
    assert PdesSame(v.mem, v'.mem, v.kernel);
    forall p | p in t && t[p] != pd ensures PdesSame(v.mem, v'.mem, t[p]) {}
  }

  lemma GrowWorld(v: Vm, v': Vm, t: Table, p: nat, first: nat, count: nat, writable: bool, mid: nat, hi: nat, o: Output)
    requires Inv(v) && TableOk(v, t) && v.kernel in v.spaces && Legal(Grow(p, first, count, writable), t.Keys)
    requires first <= mid <= hi <= first + count && Growth(v, v', t[p], first, mid, hi, writable, true)
    requires if o == Done then mid == first && hi == first + count else o == Failed && mid == hi
    ensures TableOk(v', t) && PagesStep(WorldOf(v.mem, t), Grow(p, first, count, writable), WorldOf(v'.mem, t), o, hi)
    ensures RowsStep(WorldOf(v.mem, t), Grow(p, first, count, writable), WorldOf(v'.mem, t))
  {
    hide Inv, WorldOf, HeldBy, GrownPtes, OthersSame, PageAt;
    OthersEmpty(v, v', t, t[p]);
    ClosedKept(v.mem, t, v'.mem, t, Grow(p, first, count, writable));
    WorldAt(v.mem, t);
    WorldAt(v'.mem, t);
    var s, s', e := WorldOf(v.mem, t), WorldOf(v'.mem, t), Grow(p, first, count, writable);
    forall q: nat, a: nat, b: nat | q in s'.live && a < KERNEL_PD && b < ENTRIES
      ensures PageStep(s, e, s', o, hi, q, a, b) {
      GrowthViews(v, v', t[p], first, mid, hi, writable, true, t[q], a, b);
    }
  }

  method DoRelease(m: Machine, t: Table, p: nat, first: nat, count: nat)
    requires m.Ok() && TableOk(m.V(), t) && Legal(Release(p, first, count), t.Keys)
    modifies m`mem, m`role, m.pmm
    ensures m.Ok() && TableOk(m.V(), t)
    ensures Step(WorldOf(old(m.mem), t), Release(p, first, count), WorldOf(m.mem, t), Done, 0)
    ensures Frames(old(m.V()), t, Release(p, first, count), m.V(), 0)
  {
    hide Inv, WorldOf, OthersSame, Released, Unmapped, KernelsStep, KernelSame, EmptyUser, RowsGone, RowsStep;
    ghost var v := m.V();
    Known(v);
    ghost var mid := FreeRegion(m, t[p], first, count);
    OthersEmpty(v, m.V(), t, t[p]);
    ReleaseRows(v, mid, m.V(), t, p, first, count);
    ReleaseKernel(v, mid, m.V(), t[p], first, first + count);
    KernelKept(v, t, m.V(), t, Release(p, first, count));
    WorldAt(v.mem, t);
    WorldAt(m.mem, t);
  }

  lemma ReleaseRows(v: Vm, v1: Vm, v': Vm, t: Table, p: nat, first: nat, count: nat)
    requires TableOk(v, t) && p in t && Released(v, v1, t[p], first, first + count)
    requires Unmapped(v1, v', t[p], first, first + count) && RowsGone(v1, v', t[p], first, first + count)
    requires forall q, a: nat :: q in t && t[q] != t[p] && a < KERNEL_PD ==>
      (Closed(v'.mem, t[q], a) <==> Closed(v.mem, t[q], a))
    ensures RowsStep(WorldOf(v.mem, t), Release(p, first, count), WorldOf(v'.mem, t))
  {
    hide WorldOf, EmptyUser, Closed, Released, Unmapped, RowsGone, Whole;
    WorldAt(v.mem, t);
    WorldAt(v'.mem, t);
    forall a: nat | a < KERNEL_PD
      ensures Closed(v'.mem, t[p], a) <==> Closed(v.mem, t[p], a) && !Whole(a, first, first + count) {
      RowReleased(v, v1, v', t[p], first, first + count, a);
    }
  }

  lemma RowReleased(v: Vm, v1: Vm, v': Vm, pd: nat, lo: nat, hi: nat, a: nat)
    requires Released(v, v1, pd, lo, hi) && Unmapped(v1, v', pd, lo, hi) && RowsGone(v1, v', pd, lo, hi)
    requires a < KERNEL_PD
    ensures Closed(v'.mem, pd, a) <==> Closed(v.mem, pd, a) && !Whole(a, lo, hi)
  {
    hide Base, TablesFreed, KernelHalf;
    assert Whole(a, lo, hi) ==> RowGone(v1, v', pd, a);
  }

  lemma ReleaseKernel(v: Vm, v1: Vm, v': Vm, pd: nat, lo: nat, hi: nat)
    requires Released(v, v1, pd, lo, hi) && Unmapped(v1, v', pd, lo, hi) && hi <= KERNEL_PAGE && v.kernel in v.spaces
    requires pd != v.kernel
    ensures KernelSame(v.mem, v'.mem, v.kernel)
  {
    hide Base, TablesFreed, KernelHalf;
  }

  /** A kernel mapping made through process `p`: every process sees it, and no user page changes. */
  method DoKMap(m: Machine, t: Table, p: nat, frame: nat, first: nat, count: nat, writable: bool)
    requires m.Ok() && TableOk(m.V(), t) && Legal(KMap(p, frame, first, count, writable), t.Keys)
    modifies m`mem, m`role, m.pmm
    ensures m.Ok() && TableOk(m.V(), t)
    ensures Step(WorldOf(old(m.mem), t), KMap(p, frame, first, count, writable), WorldOf(m.mem, t), Done, 0)
    ensures Frames(old(m.V()), t, KMap(p, frame, first, count, writable), m.V(), 0)
  {
    hide Inv, WorldOf, Mapped, Base, KernelsStep, PagesStep, RowsMade, Affords;
    ghost var v := m.V();
    Known(v);
    InvBase(v);
    var ok, done := MapRange(m, t[p], frame, first, count, writable, false);
    KernelAffords(v, t[p], first, first + count);
    KMapFrames(v, m.V(), t[p], first, done, frame, writable);
    KMapInv(v, m.V(), t, p, first, done, frame, writable);
    KMapStep(v, m.V(), t, p, frame, first, count, writable, done);
    ClosedKept(v.mem, t, m.mem, t, KMap(p, frame, first, count, writable));
    assert WorldOf(v.mem, t).live == t.Keys
      && WorldOf(m.mem, t).live == t.Keys by { WorldAt(v.mem, t); WorldAt(m.mem, t); }
  }

  lemma KMapFrames(v: Vm, v': Vm, pd: nat, lo: nat, hi: nat, frame: nat, writable: bool)
    requires Inv(v) && pd in v.spaces && lo >= KERNEL_PAGE && Mapped(v, v', pd, lo, hi, frame, writable, false)
    requires RowsMade(v, v', pd, MissingRows(v.mem, pd, lo, hi), 0)
    ensures v'.bits == v.bits && v'.refs == v.refs
  {
    hide Tabled, DataOk, Exclusive, Counted;
    assert MissingRows(v.mem, pd, lo, hi) == {};
    forall f | f in v'.role && 0 <= f < |v.bits| ensures f in v.role {
      if f !in v.role { SubsetSize(FreeSet(v'.bits) + {f}, FreeSet(v.bits)); }
    }
  }

  lemma InvBase(v: Vm)
    requires Inv(v)
    ensures Base(v)
  {
  }

  /** The kernel's tables are all there, so mapping kernel pages takes no frame. */
  lemma KernelAffords(v: Vm, pd: nat, lo: nat, hi: nat)
    requires Inv(v) && pd in v.spaces && lo >= KERNEL_PAGE
    ensures Affords(v, pd, lo, hi, 0)
  {
    hide Tabled, DataOk, Exclusive, Counted, Shape;
    assert MissingRows(v.mem, pd, lo, hi) == {};
  }

  lemma KMapInv(v: Vm, v': Vm, t: Table, p: nat, lo: nat, hi: nat, frame: nat, writable: bool)
    requires Inv(v) && TableOk(v, t) && p in t && Mapped(v, v', t[p], lo, hi, frame, writable, false)
    requires lo >= KERNEL_PAGE
    ensures Inv(v') && TableOk(v', t) && ViewsSame(v.spaces, v.mem, v'.mem)
    ensures forall q, a: nat :: q in t && a < KERNEL_PD ==> (Closed(v'.mem, t[q], a) <==> Closed(v.mem, t[q], a))
  {
    hide TableOk, KernelHalf, Tabled, Exclusive, Counted;
    KernelMappedInv(v, v', t[p], lo, hi, frame, writable, false);
    KernelViews(v, v');
    KernelUser(v, v', t, t[p]) by { assert t[p] != v.kernel && v.kernel in v.spaces by { TableIs(v, t, p); } }
  }

  lemma TableIs(v: Vm, t: Table, p: nat)
    requires TableOk(v, t) && p in t
    ensures t[p] in v.spaces && t[p] != v.kernel
  {
  }

  lemma KernelUser(v: Vm, v': Vm, t: Table, pd: nat)
    requires TableOk(v, t) && v.kernel in v.spaces && pd != v.kernel && v'.spaces == v.spaces && v'.kernel == v.kernel
    requires forall q, a: nat :: q in v.spaces && a < KERNEL_PD ==> Pde(v'.mem, q, a) == Pde(v.mem, q, a)
    ensures TableOk(v', t)
    ensures forall p, a: nat :: p in t && a < KERNEL_PD ==> (Closed(v'.mem, t[p], a) <==> Closed(v.mem, t[p], a))
  {
  }

  /** The same user entries, backed by the same contents. */
  lemma KernelViews(v: Vm, v': Vm)
    requires Inv(v) && UserSame(v.spaces, v.mem, v'.mem) && |v'.mem| == |v.mem|
    requires forall q, a: nat :: q in v.spaces && a < KERNEL_PD ==> Pde(v'.mem, q, a) == Pde(v.mem, q, a)
    requires forall f :: 0 <= f < |v.mem| && f !in v.role && v.bits[f] ==> v'.mem[f] == v.mem[f]
    ensures ViewsSame(v.spaces, v.mem, v'.mem)
  {
    hide KernelHalf, Tabled, Exclusive, Counted;
    forall q, a: nat, b: nat | q in v.spaces && a < KERNEL_PD && b < ENTRIES
      ensures PageAt(v'.mem, q, a, b) == PageAt(v.mem, q, a, b) {
      var x := Pte(v.mem, q, a, b);
      if x.present { assert UserMaps(v.mem, q, a, b, x.frame); }
    }
  }

  lemma KMapStep(v: Vm, v': Vm, t: Table, p: nat, frame: nat, first: nat, count: nat, writable: bool, done: nat)
    requires TableOk(v, t) && p in t && Mapped(v, v', t[p], first, done, frame, writable, false)
    requires ViewsSame(v.spaces, v.mem, v'.mem) && Inv(v) && Inv(v')
    requires first >= KERNEL_PAGE && if first + count < PAGES then done == first + count else v' == v
    ensures var s, s', e := WorldOf(v.mem, t), WorldOf(v'.mem, t), KMap(p, frame, first, count, writable);
      PagesStep(s, e, s', Done, 0) && KernelsStep(s, e, s')
  {
    hide WorldOf, Mapped, Inv, KernelWord, Leaf, EmptyUser, PageAt;
    WorldAt(v.mem, t);
    WorldAt(v'.mem, t);
    var s, s', e := WorldOf(v.mem, t), WorldOf(v'.mem, t), KMap(p, frame, first, count, writable);
    forall q: nat, i: nat, j: nat | q in s'.live && KERNEL_PD <= i < ENTRIES && j < ENTRIES
      ensures KernelStep(s, e, s', q, i, j) {
      MappedWord(v, v', t[p], first, done, frame, writable, t[q], i, j);
    }
  }

  lemma MappedWord(v: Vm, v': Vm, pd: nat, lo: nat, hi: nat, frame: nat, writable: bool, q: nat, i: nat, j: nat)
    requires Inv(v) && Inv(v') && Mapped(v, v', pd, lo, hi, frame, writable, false) && pd in v.spaces && q in v.spaces
    requires KERNEL_PD <= i < ENTRIES && j < ENTRIES
    ensures KernelWord(v'.mem, q, i, j) == if lo <= i * ENTRIES + j < hi
      then Leaf(frame + (i * ENTRIES + j - lo), writable, false) else KernelWord(v.mem, q, i, j)
  {
    hide Base, TablesTaken, DataOk, Exclusive, Counted, Shape;
    assert Pde(v.mem, q, i).present && Pde(v.mem, pd, i).present;
    assert Pde(v'.mem, q, i) == Pde(v.mem, q, i) && Pde(v'.mem, q, i).writable;
  }

  method DoKUnmap(m: Machine, t: Table, p: nat, first: nat, count: nat)
    requires m.Ok() && TableOk(m.V(), t) && Legal(KUnmap(p, first, count), t.Keys)
    modifies m`mem, m`role, m.pmm
    ensures m.Ok() && TableOk(m.V(), t)
    ensures Step(WorldOf(old(m.mem), t), KUnmap(p, first, count), WorldOf(m.mem, t), Done, 0)
    ensures Frames(old(m.V()), t, KUnmap(p, first, count), m.V(), 0)
  {
    hide Inv, WorldOf, Unmapped, Base, KernelsStep, PagesStep;
    ghost var v := m.V();
    Known(v);
    InvBase(v);
    UnmapRange(m, t[p], first, count);
    ghost var hi := if first + count < PAGES then first + count else first;
    KUnmapFrames(v, m.V(), t[p], first, hi);
    KUnmapInv(v, m.V(), t, p, first, hi);
    KUnmapStep(v, m.V(), t, p, first, count, hi);
    ClosedKept(v.mem, t, m.mem, t, KUnmap(p, first, count));
    assert WorldOf(v.mem, t).live == t.Keys
      && WorldOf(m.mem, t).live == t.Keys by { WorldAt(v.mem, t); WorldAt(m.mem, t); }
  }

  lemma KUnmapFrames(v: Vm, v': Vm, pd: nat, lo: nat, hi: nat)
    requires Unmapped(v, v', pd, lo, hi) && lo >= KERNEL_PAGE
    ensures v'.bits == v.bits && v'.refs == v.refs
  {
    hide Base, KernelHalf;
    forall f | f in v.role && 0 <= f < |v.bits| ensures f in v'.role {}
  }

  lemma KUnmapInv(v: Vm, v': Vm, t: Table, p: nat, lo: nat, hi: nat)
    requires Inv(v) && TableOk(v, t) && p in t && Unmapped(v, v', t[p], lo, hi) && lo >= KERNEL_PAGE
    ensures Inv(v') && TableOk(v', t) && ViewsSame(v.spaces, v.mem, v'.mem)
    ensures forall q, a: nat :: q in t && a < KERNEL_PD ==> (Closed(v'.mem, t[q], a) <==> Closed(v.mem, t[q], a))
  {
    hide TableOk, KernelHalf, Tabled, Exclusive, Counted;
    KernelUnmappedInv(v, v', t[p], lo, hi);
    KernelViews(v, v');
    KernelUser(v, v', t, t[p]) by { assert t[p] != v.kernel && v.kernel in v.spaces by { TableIs(v, t, p); } }
  }

  lemma KUnmapStep(v: Vm, v': Vm, t: Table, p: nat, first: nat, count: nat, hi: nat)
    requires TableOk(v, t) && p in t && Unmapped(v, v', t[p], first, hi) && ViewsSame(v.spaces, v.mem, v'.mem)
    requires first >= KERNEL_PAGE && hi == if first + count < PAGES then first + count else first
    ensures var s, s', e := WorldOf(v.mem, t), WorldOf(v'.mem, t), KUnmap(p, first, count);
      PagesStep(s, e, s', Done, 0) && KernelsStep(s, e, s')
  {
    hide WorldOf, Unmapped, KernelWord, Cleared, EmptyUser, PageAt;
    WorldAt(v.mem, t);
    WorldAt(v'.mem, t);
    var s, s', e := WorldOf(v.mem, t), WorldOf(v'.mem, t), KUnmap(p, first, count);
    forall q: nat, i: nat, j: nat | q in s'.live && KERNEL_PD <= i < ENTRIES && j < ENTRIES
      ensures KernelStep(s, e, s', q, i, j) {
      UnmappedWord(v, v', t[p], first, hi, t[q], i, j);
    }
  }

  lemma UnmappedWord(v: Vm, v': Vm, pd: nat, lo: nat, hi: nat, q: nat, i: nat, j: nat)
    requires Unmapped(v, v', pd, lo, hi) && q in v.spaces && KERNEL_PD <= i < ENTRIES && j < ENTRIES
    ensures var before, after := KernelWord(v.mem, q, i, j), KernelWord(v'.mem, q, i, j);
      if lo <= i * ENTRIES + j < hi then Cleared(before, after) else after == before
  {
    hide Base, TablesFreed, KernelHalf;
    assert Pde(v'.mem, q, i) == Pde(v.mem, q, i);
  }

  /** The number of frames that can be allocated. */
  method CountFree(bits: seq<bool>) returns (n: nat)
    ensures n == |FreeSet(bits)|
  {
    n := 0;
    var i := |bits|;
    ghost var s: set<nat> := {};
    while i > 1
      invariant (i <= |bits| && 1 <= i) || (i == |bits| == 0)
      invariant forall g: nat :: g in s <==> i <= g < |bits| && 1 <= g && !bits[g]
      invariant n == |s|
    {
      i := i - 1;
      if !bits[i] {
        s := s + {i};
        n := n + 1;
      }
    }
    assert s == FreeSet(bits);
  }

  /** The number of tables a fork has to copy. */
  method CountTables(mem: Memory, pd: nat) returns (n: nat)
    ensures n == |ToCopy(mem, pd, 0)|
  {
    n := 0;
    var i := KERNEL_PD;
    assert ToCopy(mem, pd, i) == {};
    while i > 0
      invariant 0 <= i <= KERNEL_PD && n == |ToCopy(mem, pd, i)|
    {
      i := i - 1;
      ToCopyNext(mem, pd, i);
      if Pde(mem, pd, i).present { n := n + 1; }
    }
  }

  /** No frame that entry (i, j) maps is at its limit. */
  predicate EntryLow(mem: Memory, refs: seq<nat>, pd: nat, i: nat, j: nat) {
    var w := Pte(mem, pd, i, j);
    w.present && w.frame < |refs| ==> refs[w.frame] < REFS - 1
  }

  method RowLow(mem: Memory, refs: seq<nat>, pd: nat, i: nat) returns (low: bool)
    ensures low <==> forall j: nat :: j < ENTRIES ==> EntryLow(mem, refs, pd, i, j)
  {
    var j := 0;
    while j < ENTRIES
      invariant 0 <= j <= ENTRIES && forall k: nat :: k < j ==> EntryLow(mem, refs, pd, i, k)
    {
      if !EntryLow(mem, refs, pd, i, j) { return false; }
      j := j + 1;
    }
    return true;
  }

  method CountsLow(m: Machine, pd: nat) returns (low: bool)
    ensures low <==> RefsLow(m.V(), pd)
  {
    var i := 0;
    while i < KERNEL_PD
      invariant 0 <= i <= KERNEL_PD
      invariant forall a: nat, b: nat :: a < i && b < ENTRIES ==> EntryLow(m.mem, m.pmm.refs, pd, a, b)
    {
      var ok := RowLow(m.mem, m.pmm.refs, pd, i);
      if !ok {
        HighEntry(m.V(), pd, i);
        return false;
      }
      i := i + 1;
    }
    LowEntries(m.V(), pd);
    return true;
  }

  lemma HighEntry(v: Vm, pd: nat, i: nat)
    requires i < KERNEL_PD && exists j: nat :: j < ENTRIES && !EntryLow(v.mem, v.refs, pd, i, j)
    ensures !RefsLow(v, pd)
  {
    var j: nat :| j < ENTRIES && !EntryLow(v.mem, v.refs, pd, i, j);
    assert UserMaps(v.mem, pd, i, j, Pte(v.mem, pd, i, j).frame);
  }

  lemma LowEntries(v: Vm, pd: nat)
    requires forall a: nat, b: nat :: a < KERNEL_PD && b < ENTRIES ==> EntryLow(v.mem, v.refs, pd, a, b)
    ensures RefsLow(v, pd)
  {
    forall f | 0 <= f < |v.refs| && MapsIn(v.mem, pd, f) ensures v.refs[f] < REFS - 1 {
      var a: nat, b: nat :| UserMaps(v.mem, pd, a, b, f);
      assert EntryLow(v.mem, v.refs, pd, a, b);
    }
  }

  /** An event that names what exists and that the code handles soundly in this state. */
  ghost predicate Fits(n: Snap, e: Event) {
    Legal(e, n.t.Keys) && |n.v.bits| == |n.v.refs| && Ready(n.v, n.t, e)
  }

  method Check(m: Machine, t: Table, e: Event) returns (fit: bool)
    requires m.Ok()
    ensures fit <==> Fits(Snap(m.V(), t), e)
  {
    hide Inv, Pte, RefsLow, FreeSet, ToCopy;
    Known(m.V());
    fit := Legal(e, t.Keys);
    if fit && e.Fork? {
      var free := CountFree(m.pmm.bits);
      var tables := CountTables(m.mem, t[e.parent]);
      fit := free > tables;
      if fit { fit := CountsLow(m, t[e.parent]); }
    } else if fit && (e.Load? || e.Write?) {
      var w := Pte(m.mem, t[e.p], e.i, e.j);
      if Faults(m.mem, t[e.p], e.i, e.j, e.Write?) {
        var free := CountFree(m.pmm.bits);
        fit := w.frame < |m.pmm.refs| && m.pmm.refs[w.frame] < REFS - 1 && free > 0;
        assert free > 0 <==> exists g :: 1 <= g < |m.pmm.bits| && !m.pmm.bits[g] by { SomeFree(m.pmm.bits); }
      }
    }
  }

  lemma SomeFree(bits: seq<bool>)
    ensures |FreeSet(bits)| > 0 <==> exists g :: 1 <= g < |bits| && !bits[g]
  {
    if g :| 1 <= g < |bits| && !bits[g] { assert g in FreeSet(bits); }
    if |FreeSet(bits)| > 0 {
      var g :| g in FreeSet(bits);
    }
  }

  /** What one event does: nothing if it does not fit, else the step of the specification. */
  ghost predicate Explains(n: Snap, e: Event, n': Snap, o: Output) {
    if Fits(n, e)
    then exists limit ::
      Limit(n.v, n.t, e, limit) && Step(WorldOf(n.v.mem, n.t), e, WorldOf(n'.v.mem, n'.t), o, limit)
        && Frames(n.v, n.t, e, n'.v, limit)
    else o == Refused && n' == n
  }

  /** One event on the machine is one step of the specification. */
  method DoEvent(m: Machine, t: Table, e: Event) returns (o: Output, t': Table)
    requires m.Ok() && TableOk(m.V(), t)
    modifies m`mem, m`role, m`spaces, m.pmm
    ensures m.Ok() && TableOk(m.V(), t') && Explains(Snap(old(m.V()), t), e, Snap(m.V(), t'), o)
  {
    hide Inv, TableOk, WorldOf, Step, Ready;
    o, t' := Done, t;
    var fit := Check(m, t, e);
    if !fit { return Refused, t; }
    match e {
      case Fork(p, c) => t' := DoFork(m, t, p, c);
      case Exit(p) => t' := DoExit(m, t, p);
      case Load(p, i, j, k) => o := DoLoad(m, t, p, i, j, k);
      case Write(p, i, j, k, w) => o := DoWrite(m, t, p, i, j, k, w);
      case Grow(p, first, count, writable) =>
        ghost var limit;
        o, limit := DoGrow(m, t, p, first, count, writable);
      case Release(p, first, count) => DoRelease(m, t, p, first, count);
      case KMap(p, frame, first, count, writable) => DoKMap(m, t, p, frame, first, count, writable);
      case KUnmap(p, first, count) => DoKUnmap(m, t, p, first, count);
    }
    assert !e.Grow? ==> Limit(old(m.V()), t, e, 0);
  }

  ghost predicate IsRun(trace: seq<Snap>, es: seq<Event>, outs: seq<Output>) {
    && |trace| == |es| + 1 && |outs| == |es|
    && forall k :: 0 <= k < |es| ==> Explains(trace[k], es[k], trace[k + 1], outs[k])
  }

  /** Every run of the machine, from any sound state and of any length, is a run of the
      specification without sharing. In every state the invariant holds and all processes see one
      kernel. */
  method Run(m: Machine, t: Table, es: seq<Event>) returns (outs: seq<Output>, t': Table, ghost trace: seq<Snap>)
    requires m.Ok() && TableOk(m.V(), t)
    modifies m`mem, m`role, m`spaces, m.pmm
    ensures m.Ok() && TableOk(m.V(), t') && IsRun(trace, es, outs)
    ensures trace[0] == Snap(old(m.V()), t) && trace[|es|] == Snap(m.V(), t')
    ensures forall k :: 0 <= k < |trace| ==> Inv(trace[k].v) && OneKernel(WorldOf(trace[k].v.mem, trace[k].t))
  {
    hide Inv, TableOk, WorldOf, Explains, OneKernel;
    outs, t', trace := [], t, [Snap(m.V(), t)];
    KernelSeen(m.V(), t);
    var k := 0;
    while k < |es|
      invariant 0 <= k <= |es| && m.Ok() && TableOk(m.V(), t') && IsRun(trace, es[..k], outs)
      invariant trace[0] == Snap(old(m.V()), t) && trace[k] == Snap(m.V(), t')
      invariant forall i :: 0 <= i < |trace| ==> Inv(trace[i].v) && OneKernel(WorldOf(trace[i].v.mem, trace[i].t))
    {
      assert es[..k] + [es[k]] == es[..k + 1];
      var o;
      o, t' := DoEvent(m, t', es[k]);
      KernelSeen(m.V(), t');
      outs, trace := outs + [o], trace + [Snap(m.V(), t')];
      k := k + 1;
    }
    assert es[..k] == es;
  }

  /** The process an event can change. */
  function Actor(e: Event): nat {
    match e
    case Fork(_, c) => c
    case Exit(p) => p
    case Load(p, _, _, _) => p
    case Write(p, _, _, _, _) => p
    case Grow(p, _, _, _) => p
    case Release(p, _, _) => p
    case KMap(p, _, _, _, _) => p
    case KUnmap(p, _, _) => p
  }

  /** No process notices what the others do, however they are related by forks. */
  lemma {:induction false} Isolated(trace: seq<Snap>, es: seq<Event>, outs: seq<Output>, q: nat, n: nat, i: nat, j: nat)
    requires IsRun(trace, es, outs) && n <= |es| && q in trace[0].t && i < KERNEL_PD && j < ENTRIES
    requires forall k :: 0 <= k < n ==> Actor(es[k]) != q
    ensures q in trace[n].t
    ensures PageAt(trace[n].v.mem, trace[n].t[q], i, j) == PageAt(trace[0].v.mem, trace[0].t[q], i, j)
  {
    hide WorldOf, PageAt, Ready;
    if n > 0 {
      Isolated(trace, es, outs, q, n - 1, i, j);
      assert Explains(trace[n - 1], es[n - 1], trace[n], outs[n - 1]);
      StepIsolated(trace[n - 1], es[n - 1], trace[n], outs[n - 1], q, i, j);
    }
  }

  lemma StepIsolated(n: Snap, e: Event, n': Snap, o: Output, q: nat, i: nat, j: nat)
    requires Explains(n, e, n', o) && q in n.t && Actor(e) != q && i < KERNEL_PD && j < ENTRIES
    ensures q in n'.t && PageAt(n'.v.mem, n'.t[q], i, j) == PageAt(n.v.mem, n.t[q], i, j)
  {
    hide WorldOf, PageAt, Ready, KernelsStep;
    WorldAt(n.v.mem, n.t);
    WorldAt(n'.v.mem, n'.t);
    if Fits(n, e) {
      var s, s' := WorldOf(n.v.mem, n.t), WorldOf(n'.v.mem, n'.t);
      var limit :| Limit(n.v, n.t, e, limit) && Step(s, e, s', o, limit);
      assert PageStep(s, e, s', o, limit, q, i, j);
    }
  }
}
