/** Allocating and freeing inodes. */
module FsInode {
  import opened Common
  import opened Bytes
  import opened Bitmap
  import opened FsLayout
  import opened FsGraph
  import opened FsSpace
  import opened FsVolume
  import opened FsFile

  /** `b` is a data block, table or sub-table of `ino`. */
  ghost predicate Owns(s: Store, ino: nat, b: nat) {
    b != 0 && exists loc: Loc :: Ptr(s, ino, loc) == b
  }

  lemma OwnsIs(s: Store, owner: Owners, ino: nat, b: nat)
    requires Linked(s, owner)
    ensures Owns(s, ino, b) <==> b in owner && owner[b].0 == ino
  {
  }

  /** A slot that stores a block number lies inside the inode or its table. */
  lemma LeafInTable(g: Geometry, s: Store, bits: seq<bool>, ino: nat, p: Path)
    requires Shape(g, s, bits) && Ptr(s, ino, Leaf(p)) != 0
    ensures InTable(g.Ptrs(), p) && Lba(g, s, ino, IdxOf(g.Ptrs(), p)) == Ptr(s, ino, Leaf(p))
  {
    PathIdx(g.Ptrs(), p);
  }

  /** The blocks whose bit is already cleared: those of the first `n` logical blocks. */
  ghost predicate DataFreed(ptrs: nat, owner: Owners, loose: set<nat>, ino: nat, n: nat)
    requires 0 < ptrs
  {
    forall b :: b in loose <==>
      b in owner && owner[b].0 == ino && owner[b].1.Leaf? && IdxOf(ptrs, owner[b].1.path) < n
  }

  lemma DataFreedStep(g: Geometry, s: Store, bits: seq<bool>, owner: Owners, loose: set<nat>, ino: nat, n: nat)
    requires Shape(g, s, bits) && Linked(s, owner) && DataFreed(g.Ptrs(), owner, loose, ino, n)
    requires Lba(g, s, ino, n) != 0
    ensures Lba(g, s, ino, n) !in loose
    ensures DataFreed(g.Ptrs(), owner, loose + {Lba(g, s, ino, n)}, ino, n + 1)
  {
    var lba := Lba(g, s, ino, n);
    IdxPath(g.Ptrs(), n);
    forall b | b in owner && owner[b].0 == ino && owner[b].1.Leaf? && IdxOf(g.Ptrs(), owner[b].1.path) == n
      ensures b == lba
    {
      LeafInTable(g, s, bits, ino, owner[b].1.path);
    }
  }

  /** First loop of myfs_inode_free: the data blocks. */
  method FreeData(v: Volume, ino: nat)
    requires Valid(v) && ino in v.nodes
    modifies v`blockMap, v`bits, v`loose
    ensures v.Sound()
    ensures forall b :: b in v.loose <==> b in v.owner && v.owner[b].0 == ino && v.owner[b].1.Leaf?
  {
    var i := 0;
    while i < v.nodes[ino].blockCount
      invariant 0 <= i <= v.nodes[ino].blockCount
      invariant v.Sound() && DataFreed(v.geo.Ptrs(), v.owner, v.loose, ino, i)
    {
      var lba := v.BlockLba(ino, i);
      assert lba != 0;
      DataFreedStep(v.geo, v.St(), v.bits, v.owner, v.loose, ino, i);
      v.ClearBit(lba);
      i := i + 1;
    }
    forall b | b in v.owner && v.owner[b].0 == ino && v.owner[b].1.Leaf? ensures b in v.loose {
      LeafInTable(v.geo, v.St(), v.bits, ino, v.owner[b].1.path);
    }
  }

  /** Data blocks, the single-indirect table and the first `n` sub-tables. */
  ghost predicate TablesFreed(owner: Owners, loose: set<nat>, ino: nat, n: nat) {
    forall b :: b in loose <==>
      && b in owner && owner[b].0 == ino
      && (owner[b].1.Leaf? || owner[b].1.Single? || (owner[b].1.Sub? && owner[b].1.table < n))
  }

  lemma TablesFreedStep(s: Store, owner: Owners, loose: set<nat>, ino: nat, n: nat)
    requires Linked(s, owner) && TablesFreed(owner, loose, ino, n)
    ensures var t := Ptr(s, ino, Sub(n));
      && t !in loose
      && TablesFreed(owner, if t == 0 then loose else loose + {t}, ino, n + 1)
  {
  }

  /** The loop over the master table of the double-indirect tree. */
  method FreeSubs(v: Volume, ino: nat)
    requires v.Sound() && ino in v.nodes && Ptr(v.St(), ino, Double) != 0 && TablesFreed(v.owner, v.loose, ino, 0)
    modifies v`blockMap, v`bits, v`loose
    ensures v.Sound()
    ensures forall b :: b in v.loose <==> b in v.owner && v.owner[b].0 == ino && !v.owner[b].1.Double?
  {
    var m := 0;
    while m < v.geo.Ptrs()
      invariant 0 <= m <= v.geo.Ptrs()
      invariant v.Sound() && TablesFreed(v.owner, v.loose, ino, m)
    {
      var t := Slot(v.disk, v.nodes[ino].double, m);
      assert t == Ptr(v.St(), ino, Sub(m));
      TablesFreedStep(v.St(), v.owner, v.loose, ino, m);
      if t != 0 { v.ClearBit(t); }
      m := m + 1;
    }
    forall b | b in v.owner && v.owner[b].0 == ino && v.owner[b].1.Sub? ensures v.owner[b].1.table < v.geo.Ptrs() {
      assert Ptr(v.St(), ino, v.owner[b].1) == b;
    }
  }

  /** The table part of myfs_inode_free. */
  method FreeTables(v: Volume, ino: nat)
    requires v.Sound() && ino in v.nodes
    requires forall b :: b in v.loose <==> b in v.owner && v.owner[b].0 == ino && v.owner[b].1.Leaf?
    modifies v`blockMap, v`bits, v`loose
    ensures v.Sound()
    ensures forall b :: b in v.loose <==> b in v.owner && v.owner[b].0 == ino
  {
    var single, double := v.nodes[ino].single, v.nodes[ino].double;
    assert single == Ptr(v.St(), ino, Single) && double == Ptr(v.St(), ino, Double);
    if single != 0 { v.ClearBit(single); }
    if double != 0 {
      FreeSubs(v, ino);
      v.ClearBit(double);
    } else {
      NoTables(v.St(), v.owner, ino);
    }
  }

  lemma NoTables(s: Store, owner: Owners, ino: nat)
    requires Linked(s, owner) && Ptr(s, ino, Double) == 0
    ensures forall b :: b in owner && owner[b].0 == ino ==> !owner[b].1.Double? && !owner[b].1.Sub?
  {
  }

  function Others(owner: Owners, ino: nat): Owners {
    map b | b in owner && owner[b].0 != ino :: owner[b]
  }

  /** Dropping an inode whose blocks are all cleared restores the ownership invariant. */
  lemma Dropped(g: Geometry, s: Store, bits: seq<bool>, owner: Owners, loose: set<nat>, ino: nat)
    requires Shape(g, s, bits) && Linked(s, owner) && Bitmapped(g, bits, owner, loose)
    requires forall b :: b in loose <==> b in owner && owner[b].0 == ino
    ensures var s' := s.(nodes := s.nodes - {ino});
      Shape(g, s', bits) && Linked(s', Others(owner, ino)) && Bitmapped(g, bits, Others(owner, ino), {})
    ensures forall i: nat, l: Loc :: i != ino ==> Ptr(s.(nodes := s.nodes - {ino}), i, l) == Ptr(s, i, l)
  {
    var s' := s.(nodes := s.nodes - {ino});
    var owner' := Others(owner, ino);
    forall i: nat, l: Loc | Ptr(s', i, l) != 0
      ensures Ptr(s', i, l) in owner' && owner'[Ptr(s', i, l)] == (i, l)
    {
      assert Ptr(s, i, l) == Ptr(s', i, l);
    }
  }

  lemma DroppedFiles(g: Geometry, s: Store, s': Store, ino: nat)
    requires g.Ok() && AllDense(g, s) && s' == s.(nodes := s.nodes - {ino})
    requires forall i: nat, l: Loc :: i != ino ==> Ptr(s', i, l) == Ptr(s, i, l)
    ensures AllDense(g, s') && forall i :: i in s'.nodes ==> SameFile(g, s, s', i)
  {
    forall i | i in s'.nodes ensures Dense(g, s', i) && SameFile(g, s, s', i) {
      assert Dense(g, s, i);
      assert forall j: nat :: Lba(g, s', i, j) == Lba(g, s, i, j);
      assert forall k: nat :: ByteAt(g, s', i, k) == ByteAt(g, s, i, k);
    }
  }

  /** A volume between operations, its inode bitmap marking exactly the live inodes. */
  ghost predicate Mounted(v: Volume)
    reads v
  {
    && Valid(v) && |v.inodeBits| < U32 && Shows(v.inodeMap, v.inodeBits)
    && forall i: nat :: i in v.nodes <==> i < |v.inodeBits| && v.inodeBits[i]
  }

  /** The last steps of myfs_inode_free: the inode's bit and the inode itself. */
  method Forget(v: Volume, ino: nat)
    requires v.Sound() && AllDense(v.geo, v.St()) && ino in v.nodes && |v.inodeBits| < U32
    requires Shows(v.inodeMap, v.inodeBits)
    requires forall i: nat :: i in v.nodes <==> i < |v.inodeBits| && v.inodeBits[i]
    requires forall b :: b in v.loose <==> b in v.owner && v.owner[b].0 == ino
    modifies v`inodeMap, v`inodeBits, v`nodes, v`owner, v`loose
    ensures Mounted(v) && v.nodes == old(v.nodes) - {ino}
    ensures forall i :: i in v.nodes ==> SameFile(v.geo, old(v.St()), v.St(), i)
    ensures forall i: nat, l: Loc :: i != ino ==> Ptr(v.St(), i, l) == old(Ptr(v.St(), i, l))
  {
    Dropped(v.geo, v.St(), v.bits, v.owner, v.loose, ino);
    DroppedFiles(v.geo, v.St(), v.St().(nodes := v.nodes - {ino}), ino);
    ShowsClear(v.inodeMap, v.inodeBits, ino);
    v.inodeMap, v.inodeBits := Clear(v.inodeMap, ino), v.inodeBits[ino := false];
    v.nodes := v.nodes - {ino};
    v.owner := Others(v.owner, ino);
    v.loose := {};
  }

  lemma Released(g: Geometry, s: Store, bits: seq<bool>, bits': seq<bool>, owner: Owners, loose: set<nat>, ino: nat)
    requires g.totalBlocks <= |bits| == |bits'| && Linked(s, owner)
    requires Bitmapped(g, bits, owner, {}) && Bitmapped(g, bits', owner, loose)
    requires forall b :: b in loose <==> b in owner && owner[b].0 == ino
    ensures forall b: nat :: g.dataStart <= b < g.totalBlocks ==> (bits'[b] <==> bits[b] && !Owns(s, ino, b))
  {
    forall b: nat ensures Owns(s, ino, b) <==> b in owner && owner[b].0 == ino { OwnsIs(s, owner, ino, b); }
  }

  /** myfs_inode_free: releases exactly the blocks the inode owns, and the inode. */
  method InodeFree(v: Volume, ino: nat)
    requires Mounted(v) && ino in v.nodes
    modifies v
    ensures Mounted(v) && v.nodes == old(v.nodes) - {ino}
    ensures |v.bits| == old(|v.bits|)
    ensures forall b: nat :: v.geo.dataStart <= b < v.geo.totalBlocks ==>
              (v.bits[b] <==> old(v.bits[b]) && !Owns(old(v.St()), ino, b))
    ensures forall i :: i in v.nodes ==> SameFile(v.geo, old(v.St()), v.St(), i)
    ensures OthersUntouched(old(v.St()), v.St(), ino) && old(FreeBlocks(v)) <= FreeBlocks(v)
  {
    FreeData(v, ino);
    FreeTables(v, ino);
    Released(v.geo, v.St(), old(v.bits), v.bits, v.owner, v.loose, ino);
    MoreFree(v.geo, old(v.bits), v.bits);
    Forget(v, ino);
  }

  function EmptyInode(kind: Kind): Inode {
    Inode(kind, [0, 0, 0, 0, 0, 0, 0, 0, 0, 0], 0, 0, 0, 0)
  }

  /** Adding an inode without blocks changes nothing else. */
  lemma AddedNode(g: Geometry, s: Store, bits: seq<bool>, owner: Owners, ino: nat, kind: Kind)
    requires Shape(g, s, bits) && Linked(s, owner) && AllDense(g, s) && ino !in s.nodes
    ensures var s' := s.(nodes := s.nodes[ino := EmptyInode(kind)]);
      && Shape(g, s', bits) && Linked(s', owner) && AllDense(g, s')
      && (forall i :: i in s.nodes ==> SameFile(g, s, s', i))
      && forall i: nat, l: Loc :: Ptr(s', i, l) == Ptr(s, i, l)
  {
    var s' := s.(nodes := s.nodes[ino := EmptyInode(kind)]);
    assert forall i: nat, l: Loc :: Ptr(s', i, l) == Ptr(s, i, l);
    forall i | i in s'.nodes ensures Dense(g, s', i) {
      assert i in s.nodes ==> Dense(g, s, i);
      assert forall j: nat :: Lba(g, s', i, j) == Lba(g, s, i, j);
    }
    forall i | i in s.nodes ensures SameFile(g, s, s', i) {
      assert forall k: nat :: ByteAt(g, s', i, k) == ByteAt(g, s, i, k);
    }
  }

  /** myfs_inode_alloc for regular files and directories: the first free inode number, with
      one data block and no contents. It fails exactly if no inode number or no data block is
      free, and then the volume is as before. */
  method InodeAlloc(v: Volume, kind: Kind) returns (ino: int)
    requires Mounted(v)
    modifies v
    ensures Mounted(v) && ino >= -1 && |v.inodeBits| == old(|v.inodeBits|)
    ensures ino == -1 ==>
      v.nodes == old(v.nodes) && v.bits == old(v.bits) && v.disk == old(v.disk) && v.inodeBits == old(v.inodeBits)
    ensures ino >= 0 ==>
      && ino < |v.inodeBits| && ino !in old(v.nodes) && (forall i :: 0 <= i < ino ==> i in old(v.nodes))
      && v.nodes.Keys == old(v.nodes.Keys) + {ino}
      && v.nodes[ino].kind == kind && v.nodes[ino].blockCount == 1 && Content(v.geo, v.St(), ino) == []
      && (forall i :: i in old(v.nodes) ==> SameFile(v.geo, old(v.St()), v.St(), i))
      && OthersUntouched(old(v.St()), v.St(), ino) && FreeBlocks(v) + 1 == old(FreeBlocks(v))
    ensures ino == -1 <==> old(FreeBlocks(v)) == 0 || forall i: nat :: i < |old(v.inodeBits)| ==> i in old(v.nodes)
  {
    hide Linked, Bitmapped, AllDense, Free, Gained, Shape, ByteAt, Shows, Clear, Set;
    var n := FirstEmpty(v.inodeMap, 0, v.inodeBits);
    if n == -1 { return -1; }
    var ok := NewNode(v, n, kind);
    return if ok then n else -1;
  }

  /** Inode number `n`, with its first block; or nothing. */
  method NewNode(v: Volume, n: nat, kind: Kind) returns (ok: bool)
    requires Mounted(v) && n < |v.inodeBits| && n !in v.nodes
    modifies v
    ensures Mounted(v) && |v.inodeBits| == old(|v.inodeBits|)
    ensures ok <==> old(FreeBlocks(v)) > 0
    ensures !ok ==>
      v.nodes == old(v.nodes) && v.bits == old(v.bits) && v.disk == old(v.disk) && v.inodeBits == old(v.inodeBits)
    ensures ok ==>
      && v.nodes.Keys == old(v.nodes.Keys) + {n}
      && v.nodes[n].kind == kind && v.nodes[n].blockCount == 1 && Content(v.geo, v.St(), n) == []
      && (forall i :: i in old(v.nodes) ==> SameFile(v.geo, old(v.St()), v.St(), i))
      && OthersUntouched(old(v.St()), v.St(), n) && FreeBlocks(v) + 1 == old(FreeBlocks(v))
  {
    hide Linked, Bitmapped, AllDense, Free, Gained, Shape, ByteAt, Shows, Clear, Set;
    ghost var s := v.St();
    AddNode(v, n, kind);
    ghost var s1 := v.St();
    ok := FirstBlock(v, n);
    if ok {
      GainedFrom(s, s1, v.St(), n);
    } else {
      AddRemove(old(v.nodes), old(v.inodeBits), n, EmptyInode(kind));
      ShowsClear(v.inodeMap, v.inodeBits, n);
      v.inodeMap, v.inodeBits := Clear(v.inodeMap, n), v.inodeBits[n := false];
      v.nodes := v.nodes - {n};
    }
  }

  lemma GainedFrom(s: Store, s1: Store, s2: Store, n: nat)
    requires (forall i: nat, l: Loc :: Ptr(s1, i, l) == Ptr(s, i, l)) && Gained(s1, s2, n, {})
    requires forall i :: i in s.nodes && i in s2.nodes && i != n ==>
      i in s1.nodes && s1.nodes[i] == s.nodes[i] && s2.nodes[i] == s1.nodes[i]
    ensures OthersUntouched(s, s2, n)
  {
    hide Ptr;
    GainedOthers(s, s2, n, {});
  }

  /** Gives an inode its initial block. */
  method FirstBlock(v: Volume, ino: nat) returns (ok: bool)
    requires Mounted(v) && ino in v.nodes && v.nodes[ino].blockCount == 0
    modifies v`disk, v`blockMap, v`bits, v`nodes, v`owner, v`loose
    ensures Mounted(v) && v.nodes.Keys == old(v.nodes.Keys)
    ensures !ok ==> v.bits == old(v.bits) && v.disk == old(v.disk) && v.nodes == old(v.nodes) && v.owner == old(v.owner)
    ensures ok ==> v.nodes[ino].blockCount == 1
    ensures forall i :: i in v.nodes ==> SameFile(v.geo, old(v.St()), v.St(), i)
    ensures forall i :: i in v.nodes && i != ino ==> v.nodes[i] == old(v.nodes[i])
    ensures ok <==> old(FreeBlocks(v)) > 0
    ensures ok ==> Gained(old(v.St()), v.St(), ino, {}) && FreeBlocks(v) + 1 == old(FreeBlocks(v))
  {
    hide Linked, Bitmapped, AllDense, Keeps, Free, Gained;
    ghost var s, owner := v.St(), v.owner;
    LacksIs(s, ino, PathOf(v.geo.Ptrs(), 0));
    ok := BlockAppend(v, ino);
    KeepsFields(v.geo, s, v.St(), ino);
    KeepsFiles(v.geo, s, owner, v.St(), ino);
  }

  lemma AddRemove(nodes: map<nat, Inode>, bits: seq<bool>, n: nat, nd: Inode)
    requires n !in nodes && n < |bits| && !bits[n]
    ensures nodes[n := nd] - {n} == nodes && bits[n := true][n := false] == bits
  {
  }

  method AddNode(v: Volume, ino: nat, kind: Kind)
    requires Mounted(v) && ino !in v.nodes && ino < |v.inodeBits|
    modifies v`inodeMap, v`inodeBits, v`nodes
    ensures Mounted(v) && v.nodes == old(v.nodes)[ino := EmptyInode(kind)]
    ensures v.inodeBits == old(v.inodeBits)[ino := true]
    ensures forall i :: i in old(v.nodes) ==> SameFile(v.geo, old(v.St()), v.St(), i)
    ensures forall i: nat, l: Loc :: Ptr(v.St(), i, l) == old(Ptr(v.St(), i, l))
  {
    AddedNode(v.geo, v.St(), v.bits, v.owner, ino, kind);
    ShowsSet(v.inodeMap, v.inodeBits, ino);
    v.inodeMap, v.inodeBits := Set(v.inodeMap, ino), v.inodeBits[ino := true];
    v.nodes := v.nodes[ino := EmptyInode(kind)];
  }
}
