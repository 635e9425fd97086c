/** The pointer structure of a MyFS volume: inodes with ten direct pointers, one
    single-indirect and one double-indirect table, the tables being ordinary blocks
    of the same disk. */
module FsLayout {
  import opened Common
  import opened Bytes

  const DIRECT := 10

  datatype Geometry = Geometry(blockBytes: nat, totalBlocks: nat, dataStart: nat) {
    ghost predicate Ok() {
      && 0 < blockBytes <= 2048
      && blockBytes % 512 == 0
      && 0 < dataStart <= totalBlocks < U32
    }

    /** Block numbers that fit in one table block. */
    function Ptrs(): nat {
      blockBytes / 4
    }
  }

  datatype Kind = Regular | Directory

  datatype Inode = Inode(
    kind: Kind,
    ptrs: seq<u32>,
    single: u32,
    double: u32,
    blockCount: nat,
    size: u32)

  /** Where the pointer to a logical block is stored. */
  datatype Path = Direct(slot: nat) | Indirect(slot: nat) | Nested(table: nat, slot: nat) | Beyond

  function PathOf(ptrs: nat, idx: nat): Path
    requires 0 < ptrs
  {
    if idx < DIRECT then
      Direct(idx)
    else if idx - DIRECT < ptrs then
      Indirect(idx - DIRECT)
    else
      var (m, k) := Split(idx - DIRECT - ptrs, ptrs);
      if m < ptrs then Nested(m, k) else Beyond
  }

  /** The paths of the source: ten direct blocks, `ptrs` through one table, `ptrs * ptrs`
      through two, none beyond. */
  lemma PathIs(ptrs: nat, idx: nat)
    requires 0 < ptrs
    ensures var rel := idx - DIRECT - ptrs;
      PathOf(ptrs, idx) ==
        if idx < DIRECT then Direct(idx)
        else if idx - DIRECT < ptrs then Indirect(idx - DIRECT)
        else if rel < ptrs * ptrs then Nested(rel / ptrs, rel % ptrs)
        else Beyond
    ensures PathOf(ptrs, idx).Beyond? <==> DIRECT + ptrs + ptrs * ptrs <= idx
  {
    var rel := idx - DIRECT - ptrs;
    if 0 <= rel {
      SplitIs(rel, ptrs);
      MulLess(rel / ptrs, ptrs, ptrs);
      MulLess(ptrs - 1, rel / ptrs, ptrs);
    }
  }

  /** Distinct logical blocks use distinct pointer slots. */
  lemma PathInjective(ptrs: nat, i: nat, j: nat)
    requires 0 < ptrs && PathOf(ptrs, i) == PathOf(ptrs, j) && !PathOf(ptrs, i).Beyond?
    ensures i == j
  {
    if PathOf(ptrs, i).Nested? { SplitInjective(i - DIRECT - ptrs, j - DIRECT - ptrs, ptrs); }
  }

  /** The logical block a path belongs to. */
  function IdxOf(ptrs: nat, p: Path): nat
    requires 0 < ptrs
  {
    match p
    case Direct(k) => k
    case Indirect(k) => DIRECT + k
    case Nested(m, k) => DIRECT + ptrs + Join(m, k, ptrs)
    case Beyond => 0
  }

  /** Slots that exist: below ten in the inode, below `ptrs` in a table. */
  predicate InTable(ptrs: nat, p: Path) {
    match p
    case Direct(k) => k < DIRECT
    case Indirect(k) => k < ptrs
    case Nested(m, k) => m < ptrs && k < ptrs
    case Beyond => false
  }

  /** Paths and logical blocks are in one-to-one correspondence. */
  lemma PathIdx(ptrs: nat, p: Path)
    requires 0 < ptrs && InTable(ptrs, p)
    ensures PathOf(ptrs, IdxOf(ptrs, p)) == p
  {
    if p.Nested? { SplitJoin(p.table, p.slot, ptrs); }
  }

  lemma IdxPath(ptrs: nat, idx: nat)
    requires 0 < ptrs && !PathOf(ptrs, idx).Beyond?
    ensures InTable(ptrs, PathOf(ptrs, idx)) && IdxOf(ptrs, PathOf(ptrs, idx)) == idx
  {
    PathIdx(ptrs, PathOf(ptrs, idx));
    PathInjective(ptrs, IdxOf(ptrs, PathOf(ptrs, idx)), idx);
  }

  /** Word `k` of table block `t`. */
  function Slot(disk: seq<Block>, t: nat, k: nat): u32 {
    if t < |disk| && 4 * k + 4 <= |disk[t]| then Word(disk[t], 4 * k) else 0
  }

  /** The block number stored for a path, or 0 when the block or a table on the way is absent. */
  function Follow(disk: seq<Block>, nd: Inode, p: Path): u32 {
    match p
    case Direct(k) => if k < |nd.ptrs| then nd.ptrs[k] else 0
    case Indirect(k) => if nd.single == 0 then 0 else Slot(disk, nd.single, k)
    case Nested(m, k) =>
      if nd.double == 0 then 0 else
        var sub := Slot(disk, nd.double, m);
        if sub == 0 then 0 else Slot(disk, sub, k)
    case Beyond => 0
  }

  /** myfs_block_lba_get, branch by branch. */
  function LbaGet(ptrs: nat, disk: seq<Block>, nd: Inode, idx: nat): (lba: u32)
    requires 0 < ptrs && |nd.ptrs| == DIRECT
    ensures lba == Follow(disk, nd, PathOf(ptrs, idx))
  {
    PathIs(ptrs, idx);
    if idx < DIRECT then nd.ptrs[idx]
    else
      var rel := idx - DIRECT;
      if rel < ptrs then
        if nd.single == 0 then 0 else Slot(disk, nd.single, rel)
      else
        var rel := rel - ptrs;
        if rel < ptrs * ptrs then
          if nd.double == 0 then 0 else
            var sub := Slot(disk, nd.double, rel / ptrs);
            if sub == 0 then 0 else Slot(disk, sub, rel % ptrs)
        else 0
  }

  /** Every place of an inode that can hold a block number. */
  datatype Loc = Leaf(path: Path) | Single | Double | Sub(table: nat)

  function At(disk: seq<Block>, nd: Inode, loc: Loc): u32 {
    match loc
    case Leaf(p) => Follow(disk, nd, p)
    case Single => nd.single
    case Double => nd.double
    case Sub(m) => if nd.double == 0 then 0 else Slot(disk, nd.double, m)
  }

  datatype Store = Store(disk: seq<Block>, nodes: map<nat, Inode>)

  function Ptr(s: Store, ino: nat, loc: Loc): u32 {
    if ino in s.nodes then At(s.disk, s.nodes[ino], loc) else 0
  }

  type Owners = map<nat, (nat, Loc)>

  /** `owner` is exactly the inverse of the pointer graph: every stored block number is
      owned by the one place that stores it, and every owned block is stored there.
      Disjointness of all data blocks, tables and sub-tables of all inodes follows,
      because `owner` is a function. */
  ghost predicate Linked(s: Store, owner: Owners) {
    && (forall ino: nat, loc: Loc :: Ptr(s, ino, loc) != 0 ==>
          Ptr(s, ino, loc) in owner && owner[Ptr(s, ino, loc)] == (ino, loc))
    && (forall b :: b in owner ==>
          0 < b < |s.disk| && owner[b].0 in s.nodes && Ptr(s, owner[b].0, owner[b].1) == b)
  }

  /** `owner` after the place `at` stops storing `before` and stores `after`. */
  function Reown(owner: Owners, before: u32, after: u32, at: (nat, Loc)): Owners {
    var rest := map b | b in owner && b != before :: owner[b];
    if after == 0 then rest else rest[after := at]
  }

  /** The pointer graphs differ at one place only. */
  ghost predicate Repointed(s: Store, s': Store, ino: nat, loc: Loc, p: u32) {
    forall i: nat, l: Loc :: Ptr(s', i, l) == if i == ino && l == loc then p else Ptr(s, i, l)
  }

  lemma Relink(s: Store, s': Store, owner: Owners, ino: nat, loc: Loc, p: u32)
    requires Linked(s, owner) && Repointed(s, s', ino, loc, p)
    requires |s'.disk| == |s.disk| && s'.nodes.Keys == s.nodes.Keys && ino in s.nodes
    requires p == 0 || (p !in owner && p < |s.disk|)
    ensures Linked(s', Reown(owner, Ptr(s, ino, loc), p, (ino, loc)))
  {
    var owner' := Reown(owner, Ptr(s, ino, loc), p, (ino, loc));
    forall i: nat, l: Loc | Ptr(s', i, l) != 0
      ensures Ptr(s', i, l) in owner' && owner'[Ptr(s', i, l)] == (i, l)
    {
      if !(i == ino && l == loc) { assert Ptr(s, i, l) in owner; }
    }
    forall b | b in owner' ensures 0 < b < |s'.disk| && Ptr(s', owner'[b].0, owner'[b].1) == b {
      if b != p { assert b in owner && owner'[b] == owner[b]; }
    }
  }
}
