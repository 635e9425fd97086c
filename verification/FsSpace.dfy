/** How much room an operation needs: the free blocks of a volume, and the pointer tables an
    inode still lacks. */
module FsSpace {
  import opened Common
  import opened Bytes
  import opened FsLayout

  /** The free blocks of the data area. */
  ghost function Free(g: Geometry, bits: seq<bool>): set<nat> {
    set b: nat | g.dataStart <= b < g.totalBlocks && b < |bits| && !bits[b]
  }

  lemma TakeFree(g: Geometry, bits: seq<bool>, b: nat)
    requires b in Free(g, bits)
    ensures |Free(g, bits[b := true])| + 1 == |Free(g, bits)|
  {
    assert Free(g, bits) == Free(g, bits[b := true]) + {b};
  }

  lemma GiveFree(g: Geometry, bits: seq<bool>, b: nat)
    requires b < |bits| && g.dataStart <= b < g.totalBlocks && bits[b]
    ensures |Free(g, bits[b := false])| == |Free(g, bits)| + 1
  {
    assert Free(g, bits[b := false]) == Free(g, bits) + {b};
  }

  /** Clearing bits only adds free blocks. */
  lemma MoreFree(g: Geometry, bits: seq<bool>, bits': seq<bool>)
    requires |bits'| == |bits| && forall b :: g.dataStart <= b < g.totalBlocks && b < |bits| && bits'[b] ==> bits[b]
    ensures |Free(g, bits)| <= |Free(g, bits')|
  {
    SubsetSize(Free(g, bits), Free(g, bits'));
  }

  /** The tables on the way to a data pointer. */
  function TablesOf(p: Path): set<Loc> {
    match p
    case Direct(_) => {}
    case Indirect(_) => {Single}
    case Nested(m, _) => {Double, Sub(m)}
    case Beyond => {}
  }

  /** Those of them the inode lacks. */
  function Lacks(s: Store, ino: nat, p: Path): set<Loc> {
    set l | l in TablesOf(p) && Ptr(s, ino, l) == 0
  }

  /** Inode `ino` has gained the tables in `made`; every other table is there or lacking as before. */
  ghost predicate Gained(s: Store, s': Store, ino: nat, made: set<Loc>) {
    forall i: nat, l: Loc :: !l.Leaf? ==>
      (Ptr(s', i, l) != 0 <==> Ptr(s, i, l) != 0 || (i == ino && l in made))
  }

  lemma GainedTrans(s: Store, s1: Store, s2: Store, ino: nat, a: set<Loc>, b: set<Loc>)
    requires Gained(s, s1, ino, a) && Gained(s1, s2, ino, b)
    ensures Gained(s, s2, ino, a + b)
  {
  }

  lemma RepointedTable(s: Store, s': Store, ino: nat, l: Loc, p: u32)
    requires Repointed(s, s', ino, l, p) && p != 0 && !l.Leaf?
    ensures Gained(s, s', ino, {l})
  {
  }

  lemma RepointedLeaf(s: Store, s': Store, ino: nat, l: Loc, p: u32)
    requires Repointed(s, s', ino, l, p) && l.Leaf?
    ensures Gained(s, s', ino, {})
  {
  }

  lemma SameTables(s: Store, s': Store, ino: nat)
    requires forall i: nat, l: Loc :: Ptr(s', i, l) == Ptr(s, i, l)
    ensures Gained(s, s', ino, {})
  {
  }

  /** What is lacking on one path. */
  lemma LacksIs(s: Store, ino: nat, p: Path)
    ensures p.Direct? || p.Beyond? ==> Lacks(s, ino, p) == {}
    ensures p.Indirect? ==> Lacks(s, ino, p) == if Ptr(s, ino, Single) == 0 then {Single} else {}
    ensures p.Nested? && Ptr(s, ino, Double) == 0 ==> Lacks(s, ino, p) == {Double, Sub(p.table)}
    ensures p.Nested? && Ptr(s, ino, Double) != 0 ==>
      Lacks(s, ino, p) == if Ptr(s, ino, Sub(p.table)) == 0 then {Sub(p.table)} else {}
  {
  }

  /** Making one table `l` that `ino` lacks: it takes a free block if there is one. */
  ghost predicate Tabled(g: Geometry, s: Store, bits: seq<bool>, ino: nat, l: Loc, ok: bool, s': Store,
    bits': seq<bool>) {
    && (ok <==> Free(g, bits) != {})
    && (ok ==> Gained(s, s', ino, {l}) && |Free(g, bits')| + 1 == |Free(g, bits)|)
  }

  /** Storing a block number on path `p`: it takes one free block for each table lacking there, and
      fails exactly if there are not enough or the path does not exist. */
  ghost predicate Fitted(g: Geometry, s: Store, bits: seq<bool>, ino: nat, p: Path, ok: bool, s': Store,
    bits': seq<bool>) {
    && (ok <==> !p.Beyond? && |Free(g, bits)| >= |Lacks(s, ino, p)|)
    && (ok ==> Gained(s, s', ino, Lacks(s, ino, p)) && |Free(g, bits')| + |Lacks(s, ino, p)| == |Free(g, bits)|)
  }

  /** The cases of storing a block number, as the code runs through them. */
  lemma FittedNow(g: Geometry, s: Store, bits: seq<bool>, ino: nat, p: Path, s': Store)
    requires !p.Beyond? && Lacks(s, ino, p) == {} && Gained(s, s', ino, {})
    ensures Fitted(g, s, bits, ino, p, true, s', bits)
  {
  }

  lemma FittedSingle(g: Geometry, s: Store, bits: seq<bool>, ino: nat, p: Path, made: bool, s1: Store,
    bits1: seq<bool>, s': Store)
    requires p.Indirect? && Ptr(s, ino, Single) == 0 && Tabled(g, s, bits, ino, Single, made, s1, bits1)
    requires made ==> Gained(s1, s', ino, {})
    ensures Fitted(g, s, bits, ino, p, made, s', bits1)
  {
    LacksIs(s, ino, p);
    assert |{Single}| == 1;
    if made {
      GainedTrans(s, s1, s', ino, {Single}, {});
      assert {Single} + {} == {Single};
    }
  }

  lemma FittedSub(g: Geometry, s: Store, bits: seq<bool>, ino: nat, p: Path, made: bool, s1: Store, bits1: seq<bool>,
    s': Store)
    requires p.Nested? && Ptr(s, ino, Double) != 0 && Ptr(s, ino, Sub(p.table)) == 0
    requires Tabled(g, s, bits, ino, Sub(p.table), made, s1, bits1)
    requires made ==> Gained(s1, s', ino, {})
    ensures Fitted(g, s, bits, ino, p, made, s', bits1)
  {
    LacksIs(s, ino, p);
    assert |{Sub(p.table)}| == 1;
    if made {
      GainedTrans(s, s1, s', ino, {Sub(p.table)}, {});
      assert {Sub(p.table)} + {} == {Sub(p.table)};
    }
  }

  /** The master table comes first; without it the rest is not tried. */
  lemma FittedDouble(g: Geometry, s: Store, bits: seq<bool>, ino: nat, p: Path, made: bool, s1: Store,
    bits1: seq<bool>, ok: bool, s': Store, bits': seq<bool>)
    requires p.Nested? && Ptr(s, ino, Double) == 0 && Tabled(g, s, bits, ino, Double, made, s1, bits1)
    requires made ==> Ptr(s1, ino, Sub(p.table)) == 0 && Fitted(g, s1, bits1, ino, p, ok, s', bits')
    requires !made ==> !ok
    ensures Fitted(g, s, bits, ino, p, ok, s', bits')
  {
    LacksIs(s, ino, p);
    assert |{Double, Sub(p.table)}| == 2;
    if made {
      LacksIs(s1, ino, p);
      assert |{Sub(p.table)}| == 1;
      if ok {
        GainedTrans(s, s1, s', ino, {Double}, {Sub(p.table)});
        assert {Double} + {Sub(p.table)} == {Double, Sub(p.table)};
      }
    }
  }

  /** A stored block number has all its tables. */
  lemma StoredLacks(s: Store, ino: nat, p: Path)
    requires Ptr(s, ino, Leaf(p)) != 0
    ensures Lacks(s, ino, p) == {}
  {
  }

  /** The tables that logical blocks lo..hi still lack. */
  ghost function Missing(g: Geometry, s: Store, ino: nat, lo: nat, hi: nat): set<Loc>
    requires g.Ok()
    decreases hi
  {
    if hi <= lo then {} else Missing(g, s, ino, lo, hi - 1) + Lacks(s, ino, PathOf(g.Ptrs(), hi - 1))
  }

  lemma {:induction false} MissingMono(g: Geometry, s: Store, ino: nat, lo: nat, mid: nat, hi: nat)
    requires g.Ok() && mid <= hi
    ensures Missing(g, s, ino, lo, mid) <= Missing(g, s, ino, lo, hi)
    ensures |Missing(g, s, ino, lo, mid)| <= |Missing(g, s, ino, lo, hi)|
    decreases hi
  {
    hide PathOf, Lacks;
    if mid < hi { MissingMono(g, s, ino, lo, mid, hi - 1); }
    SubsetSize(Missing(g, s, ino, lo, mid), Missing(g, s, ino, lo, hi));
  }

  /** After the tables for blocks lo..mid were made, block `mid` lacks the others it needs. */
  lemma MissingNext(g: Geometry, s: Store, s1: Store, ino: nat, lo: nat, mid: nat)
    requires g.Ok() && lo <= mid && Gained(s, s1, ino, Missing(g, s, ino, lo, mid))
    ensures Missing(g, s, ino, lo, mid + 1) == Missing(g, s, ino, lo, mid) + Lacks(s1, ino, PathOf(g.Ptrs(), mid))
    ensures |Missing(g, s, ino, lo, mid + 1)| == |Missing(g, s, ino, lo, mid)| + |Lacks(s1, ino, PathOf(g.Ptrs(), mid))|
  {
    hide PathOf, Ptr;
    var p := PathOf(g.Ptrs(), mid);
    assert Missing(g, s, ino, lo, mid) !! Lacks(s1, ino, p);
    assert Missing(g, s, ino, lo, mid) + Lacks(s1, ino, p) == Missing(g, s, ino, lo, mid) + Lacks(s, ino, p);
  }

  /** The missing tables depend on which tables are there only. */
  lemma {:induction false} MissingSame(g: Geometry, s: Store, s': Store, ino: nat, lo: nat, hi: nat)
    requires g.Ok() && forall l: Loc :: !l.Leaf? ==> (Ptr(s', ino, l) == 0 <==> Ptr(s, ino, l) == 0)
    ensures Missing(g, s', ino, lo, hi) == Missing(g, s, ino, lo, hi)
    decreases hi
  {
    if lo < hi {
      MissingSame(g, s, s', ino, lo, hi - 1);
      assert Lacks(s', ino, PathOf(g.Ptrs(), hi - 1)) == Lacks(s, ino, PathOf(g.Ptrs(), hi - 1));
    }
  }

  /** `free` blocks are enough for `ino` to have `target` blocks: one for each block it does not
      have yet and one for each table it lacks for them. */
  ghost predicate RoomFor(g: Geometry, s: Store, free: nat, ino: nat, target: nat)
    requires g.Ok() && ino in s.nodes
  {
    var have := s.nodes[ino].blockCount;
    target <= have
    || (!PathOf(g.Ptrs(), target - 1).Beyond? && free >= target - have + |Missing(g, s, ino, have, target)|)
  }

  /** Once a block is past the largest file, so are all later ones. */
  lemma BeyondMono(ptrs: nat, i: nat, j: nat)
    requires 0 < ptrs && i <= j && PathOf(ptrs, i).Beyond?
    ensures PathOf(ptrs, j).Beyond?
  {
    PathIs(ptrs, i);
    PathIs(ptrs, j);
  }

  /** Inode `i` has the size, the blocks and the tables it had. */
  ghost predicate Untouched(s: Store, s': Store, i: nat) {
    && i in s.nodes && i in s'.nodes
    && s'.nodes[i].size == s.nodes[i].size && s'.nodes[i].blockCount == s.nodes[i].blockCount
    && forall l: Loc :: !l.Leaf? ==> (Ptr(s', i, l) == 0 <==> Ptr(s, i, l) == 0)
  }

  ghost predicate OthersUntouched(s: Store, s': Store, d: nat) {
    forall i :: i in s.nodes && i in s'.nodes && i != d ==> Untouched(s, s', i)
  }

  /** The room an inode needs depends on its own blocks and tables only. */
  lemma RoomUntouched(g: Geometry, s: Store, s': Store, free: nat, i: nat, target: nat)
    requires g.Ok() && Untouched(s, s', i)
    ensures RoomFor(g, s', free, i, target) <==> RoomFor(g, s, free, i, target)
  {
    hide PathOf, Missing, Ptr;
    MissingSame(g, s, s', i, s.nodes[i].blockCount, target);
  }

  lemma GainedOthers(s: Store, s': Store, ino: nat, made: set<Loc>)
    requires Gained(s, s', ino, made)
    requires forall i :: i in s.nodes && i in s'.nodes && i != ino ==> s'.nodes[i] == s.nodes[i]
    ensures OthersUntouched(s, s', ino)
  {
    hide Ptr;
  }

  /** Blocks whose tables are there lack none. */
  lemma {:induction false} NoneMissing(g: Geometry, s: Store, s': Store, ino: nat, lo: nat, hi: nat)
    requires g.Ok() && Gained(s, s', ino, {})
    requires forall j: nat :: lo <= j < hi ==> Ptr(s, ino, Leaf(PathOf(g.Ptrs(), j))) != 0
    ensures Missing(g, s', ino, lo, hi) == {}
    decreases hi
  {
    hide PathOf;
    if lo < hi {
      NoneMissing(g, s, s', ino, lo, hi - 1);
      var p := PathOf(g.Ptrs(), hi - 1);
      StoredLacks(s, ino, p);
      LacksAfter(s, s', ino, p);
    }
  }

  lemma LacksAfter(s: Store, s': Store, ino: nat, p: Path)
    requires Gained(s, s', ino, {}) && Lacks(s, ino, p) == {}
    ensures Lacks(s', ino, p) == {}
  {
    hide Ptr;
    forall l | l in TablesOf(p) ensures Ptr(s', ino, l) != 0 { assert l !in Lacks(s, ino, p); }
  }
}
