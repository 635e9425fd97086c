/** A mounted MyFS volume: the disk, the two bitmaps and the inodes, updated in place. */
module FsVolume {
  import opened Bytes
  import opened Bitmap
  import opened FsLayout
  import opened FsGraph
  import opened FsSpace

  /** The disk block of logical block `i` of inode `ino`, 0 if there is none. */
  function Lba(g: Geometry, s: Store, ino: nat, i: nat): u32
    requires g.Ok()
  {
    Ptr(s, ino, Leaf(PathOf(g.Ptrs(), i)))
  }

  ghost predicate Shape(g: Geometry, s: Store, bits: seq<bool>) {
    && g.Ok()
    && |s.disk| == g.totalBlocks
    && (forall b :: 0 <= b < |s.disk| ==> |s.disk[b]| == g.blockBytes)
    && |bits| == (g.totalBlocks + 7) / 8 * 8
    && (forall b :: g.totalBlocks <= b < |bits| ==> bits[b])
    && (forall ino :: ino in s.nodes ==> |s.nodes[ino].ptrs| == DIRECT)
  }

  /** A bit of the data area is set exactly for owned blocks; `loose` holds the blocks in
      transit inside an operation, whose bit and ownership disagree. */
  ghost predicate Bitmapped(g: Geometry, bits: seq<bool>, owner: Owners, loose: set<nat>)
    requires g.totalBlocks <= |bits|
  {
    && (forall b :: g.dataStart <= b < g.totalBlocks ==> (bits[b] <==> (b in owner) != (b in loose)))
    && (forall b :: b in owner || b in loose ==> g.dataStart <= b < g.totalBlocks)
  }

  /** A block in transit becomes owned by the place that now stores it. */
  lemma Hook(g: Geometry, bits: seq<bool>, owner: Owners, loose: set<nat>, p: u32, at: (nat, Loc))
    requires g.totalBlocks <= |bits| && Bitmapped(g, bits, owner, loose)
    requires p in loose && p !in owner && p != 0 && 0 !in owner
    ensures Bitmapped(g, bits, Reown(owner, 0, p, at), loose - {p})
  {
  }

  /** A block whose bit was cleared stops being owned when its pointer is zeroed. */
  lemma Unhook(g: Geometry, bits: seq<bool>, owner: Owners, loose: set<nat>, p: u32, at: (nat, Loc))
    requires g.totalBlocks <= |bits| && Bitmapped(g, bits, owner, loose)
    requires p in loose && p in owner
    ensures Bitmapped(g, bits, Reown(owner, p, 0, at), loose - {p})
  {
  }

  /** Only tables of `ino` were added between `s` and `s'`: every data pointer of every
      inode, every data block and every block in transit is as before. */
  ghost predicate TablesGrew(s: Store, owner: Owners, loose: set<nat>, ino: nat, s': Store, owner': Owners) {
    && |s'.disk| == |s.disk|
    && s'.nodes.Keys == s.nodes.Keys && ino in s.nodes
    && (forall i :: i in s.nodes && i != ino ==> s'.nodes[i] == s.nodes[i])
    && s'.nodes[ino] == s.nodes[ino].(single := s'.nodes[ino].single, double := s'.nodes[ino].double)
    && (forall i: nat, p: Path :: Ptr(s', i, Leaf(p)) == Ptr(s, i, Leaf(p)))
    && (forall b :: 0 <= b < |s.disk| && (b in loose || (b in owner && owner[b].1.Leaf?)) ==> s'.disk[b] == s.disk[b])
    && (forall b :: b in owner ==> b in owner' && owner'[b] == owner[b])
  }

  lemma TablesGrewTrans(s: Store, owner: Owners, loose: set<nat>, ino: nat, s': Store, owner': Owners, s'': Store,
    owner'': Owners)
    requires TablesGrew(s, owner, loose, ino, s', owner') && TablesGrew(s', owner', loose, ino, s'', owner'')
    ensures TablesGrew(s, owner, loose, ino, s'', owner'')
  {
  }

  /** One table block `t`, taken from the free blocks, was zeroed and hooked in. */
  lemma TableAdded(s: Store, owner: Owners, loose: set<nat>, ino: nat, t: u32, s1: Store, loc: Loc, s': Store)
    requires Linked(s, owner) && ino in s.nodes && t !in owner && t !in loose && t != 0 && !loc.Leaf?
    requires |s1.disk| == |s.disk| && s1.nodes == s.nodes
    requires forall b :: 0 <= b < |s.disk| && b != t ==> s1.disk[b] == s.disk[b]
    requires forall i: nat, l: Loc :: Ptr(s1, i, l) == Ptr(s, i, l)
    requires Repointed(s1, s', ino, loc, t)
    requires ino in s'.nodes
    requires s'.nodes == s.nodes[ino := s.nodes[ino].(single := s'.nodes[ino].single, double := s'.nodes[ino].double)]
    requires |s'.disk| == |s.disk|
    requires loose !! owner.Keys
    requires forall b :: 0 <= b < |s.disk| && s'.disk[b] != s1.disk[b] ==> b in owner && owner[b].1.Double?
    ensures TablesGrew(s, owner, loose, ino, s', Reown(owner, 0, t, (ino, loc)))
  {
    assert s'.nodes.Keys == s.nodes.Keys;
  }

  /** The zeroed block `t` becomes second-level table `m`. */
  lemma SubMade(g: Geometry, s0: Store, bits: seq<bool>, owner: Owners, loose: set<nat>, ino: nat, m: nat, t: u32,
    s: Store)
    requires Shape(g, s0, bits) && Linked(s0, owner) && Shape(g, s, bits) && Linked(s, owner) && ino in s0.nodes
    requires loose !! owner.Keys
    requires t !in owner && t !in loose && 0 < t < |s0.disk| && s == s0.(disk := s0.disk[t := Zeros(g.blockBytes)])
    requires (forall j: nat :: Slot(s.disk, t, j) == 0) && forall i: nat, l: Loc :: Ptr(s, i, l) == Ptr(s0, i, l)
    requires Ptr(s0, ino, Double) != 0 && Ptr(s0, ino, Sub(m)) == 0 && m < g.Ptrs()
    ensures s.nodes[ino].double < |s.disk| && 4 * m + 4 <= |s.disk[s.nodes[ino].double]|
    ensures var s' := s.(disk := PutSlot(s.disk, s.nodes[ino].double, m, t));
      && Shape(g, s', bits) && Repointed(s, s', ino, Sub(m), t) && Gained(s0, s', ino, {Sub(m)})
        && Ptr(s', ino, Sub(m)) == t
      && TablesGrew(s0, owner, loose, ino, s', Reown(owner, 0, t, (ino, Sub(m))))
  {
    assert Ptr(s, ino, Double) == Ptr(s0, ino, Double);
    SubCreate(s, owner, ino, m, t);
    var s' := s.(disk := PutSlot(s.disk, s.nodes[ino].double, m, t));
    TableAdded(s0, owner, loose, ino, t, s, Sub(m), s');
    RepointedTable(s0, s', ino, Sub(m), t);
  }

  /** The block map after block `idx` of `ino` was pointed at `phys`: no other logical block
      of any inode moved and no data block was overwritten. */
  ghost predicate Remapped(g: Geometry, s: Store, owner: Owners, loose: set<nat>, ino: nat, idx: nat, phys: u32,
    s': Store)
    requires g.Ok()
  {
    && |s'.disk| == |s.disk|
    && s'.nodes.Keys == s.nodes.Keys && ino in s.nodes
    && (forall i :: i in s.nodes && i != ino ==> s'.nodes[i] == s.nodes[i])
    && (var nd, nd' := s.nodes[ino], s'.nodes[ino];
        nd'.kind == nd.kind && nd'.size == nd.size && nd'.blockCount == nd.blockCount)
    && (forall i: nat, j: nat :: Lba(g, s', i, j) == if i == ino && j == idx then phys else Lba(g, s, i, j))
    && (forall b :: 0 <= b < |s.disk| && (b in loose || (b in owner && owner[b].1.Leaf?)) ==> s'.disk[b] == s.disk[b])
  }

  /** One data pointer of `ino` was rewritten, in the inode or in one of its tables. */
  ghost predicate LeafSet(s: Store, owner: Owners, loose: set<nat>, ino: nat, p: Path, phys: u32, s': Store) {
    && |s'.disk| == |s.disk|
    && s'.nodes.Keys == s.nodes.Keys && ino in s.nodes
    && s'.nodes == s.nodes[ino := s.nodes[ino].(ptrs := s'.nodes[ino].ptrs)]
    && Repointed(s, s', ino, Leaf(p), phys)
    && (forall b :: 0 <= b < |s.disk| && (b in loose || (b in owner && owner[b].1.Leaf?)) ==> s'.disk[b] == s.disk[b])
  }

  /** The graph change of one leaf write, seen as a change of the block map. */
  lemma LeafIsBlock(g: Geometry, s: Store, s': Store, ino: nat, idx: nat, phys: u32)
    requires g.Ok() && !PathOf(g.Ptrs(), idx).Beyond? && Repointed(s, s', ino, Leaf(PathOf(g.Ptrs(), idx)), phys)
    ensures forall i: nat, j: nat :: Lba(g, s', i, j) == if i == ino && j == idx then phys else Lba(g, s, i, j)
  {
    var ptrs := g.Ptrs();
    forall i: nat, j: nat ensures Lba(g, s', i, j) == if i == ino && j == idx then phys else Lba(g, s, i, j) {
      if PathOf(ptrs, j) == PathOf(ptrs, idx) { PathInjective(ptrs, idx, j); }
    }
  }

  lemma TablesGrewRefl(s: Store, owner: Owners, loose: set<nat>, ino: nat)
    requires ino in s.nodes
    ensures TablesGrew(s, owner, loose, ino, s, owner)
  {
    assert s.nodes[ino].(single := s.nodes[ino].single, double := s.nodes[ino].double) == s.nodes[ino];
  }

  /** Adding tables and then writing one leaf is one change of the block map. */
  lemma MapBlockSteps(g: Geometry, s: Store, owner: Owners, loose: set<nat>, ino: nat, idx: nat, phys: u32,
                      s1: Store, owner1: Owners, s': Store)
    requires g.Ok() && !PathOf(g.Ptrs(), idx).Beyond?
    requires TablesGrew(s, owner, loose, ino, s1, owner1)
    requires LeafSet(s1, owner1, loose, ino, PathOf(g.Ptrs(), idx), phys, s')
    ensures Remapped(g, s, owner, loose, ino, idx, phys, s')
  {
    LeafIsBlock(g, s1, s', ino, idx, phys);
  }

  lemma GrewLeaf(s: Store, owner: Owners, loose: set<nat>, ino: nat, s1: Store, owner1: Owners, p: Path)
    requires TablesGrew(s, owner, loose, ino, s1, owner1)
    ensures ino in s1.nodes && Ptr(s1, ino, Leaf(p)) == Ptr(s, ino, Leaf(p))
  {
  }

  lemma LeafTables(s: Store, owner: Owners, loose: set<nat>, ino: nat, p: Path, phys: u32, s': Store)
    requires LeafSet(s, owner, loose, ino, p, phys, s')
    ensures Gained(s, s', ino, {})
  {
    RepointedLeaf(s, s', ino, Leaf(p), phys);
  }

  lemma GrewRemapped(g: Geometry, s: Store, owner: Owners, loose: set<nat>, ino: nat, s1: Store, owner1: Owners,
    idx: nat, phys: u32, s': Store)
    requires g.Ok() && TablesGrew(s, owner, loose, ino, s1, owner1)
    requires Remapped(g, s1, owner1, loose, ino, idx, phys, s')
    ensures Remapped(g, s, owner, loose, ino, idx, phys, s')
  {
  }

  /** A new master table has no second-level tables. */
  lemma NoSubs(g: Geometry, s: Store, bits: seq<bool>, ino: nat, s1: Store, bits1: seq<bool>, m: nat)
    requires Ptr(s, ino, Double) == 0 && Tabled(g, s, bits, ino, Double, true, s1, bits1)
    ensures Ptr(s1, ino, Sub(m)) == 0
  {
    assert Ptr(s, ino, Sub(m)) == 0;
  }

  /** Only the pointer fields of an inode decide where its blocks are. */
  lemma SameWhere(s: Store, s': Store, ino: nat)
    requires ino in s.nodes && ino in s'.nodes && s'.disk == s.disk && s'.nodes == s.nodes[ino := s'.nodes[ino]]
    requires var nd, nd' := s.nodes[ino], s'.nodes[ino];
             nd'.ptrs == nd.ptrs && nd'.single == nd.single && nd'.double == nd.double
    ensures forall i: nat, l: Loc :: Ptr(s', i, l) == Ptr(s, i, l)
  {
  }

  class Volume {
    const geo: Geometry
    var disk: seq<Block>
    /** The two bitmaps, as bytes and as what their bits say. */
    var blockMap: Bits
    var inodeMap: Bits
    ghost var bits: seq<bool>
    ghost var inodeBits: seq<bool>
    var nodes: map<nat, Inode>
    ghost var owner: Owners
    ghost var loose: set<nat>

    constructor (geo: Geometry, disk: seq<Block>, blockMap: Bits, inodeMap: Bits)
      ensures this.geo == geo && this.disk == disk && this.blockMap == blockMap && this.inodeMap == inodeMap
      ensures Shows(blockMap, bits) && Shows(inodeMap, inodeBits) && bits == View(blockMap)
      ensures inodeBits == View(inodeMap)
      ensures nodes == map[] && owner == map[] && loose == {}
    {
      this.geo, this.disk, this.blockMap, this.inodeMap := geo, disk, blockMap, inodeMap;
      bits, inodeBits := View(blockMap), View(inodeMap);
      ShowsView(blockMap, View(blockMap));
      ShowsView(inodeMap, View(inodeMap));
      nodes, owner, loose := map[], map[], {};
    }

    ghost function St(): Store
      reads this
    {
      Store(disk, nodes)
    }

    ghost predicate Sound()
      reads this
    {
      && Shape(geo, St(), bits) && Linked(St(), owner) && Bitmapped(geo, bits, owner, loose)
      && Shows(blockMap, bits)
    }

    /** myfs_bitmap_alloc: the first clear bit at or after the data area, 0 if none. */
    method BitmapAlloc() returns (lba: nat)
      requires Sound() && loose !! owner.Keys
      modifies this`blockMap, this`bits, this`loose
      ensures Sound() && loose !! owner.Keys
      ensures lba == 0 ==> bits == old(bits) && loose == old(loose)
      ensures lba == 0 <==> forall b :: geo.dataStart <= b < geo.totalBlocks ==> old(bits[b])
      ensures lba != 0 ==>
        && geo.dataStart <= lba < geo.totalBlocks
        && !old(bits[lba]) && bits == old(bits)[lba := true]
        && (forall b :: geo.dataStart <= b < lba ==> old(bits[b]))
        && lba !in owner && lba !in old(loose) && loose == old(loose) + {lba}
      ensures lba == 0 <==> Free(geo, old(bits)) == {}
      ensures lba != 0 ==> |Free(geo, bits)| + 1 == |Free(geo, old(bits))|
    {
      hide Shows, Set;
      var n := FirstEmpty(blockMap, geo.dataStart, bits);
      if n == -1 { return 0; }
      TakeFree(geo, bits, n);
      ShowsSet(blockMap, bits, n);
      blockMap, bits := Set(blockMap, n), bits[n := true];
      loose := loose + {n};
      return n;
    }

    /** disk_write_block on a block that is not a table: no pointer of any inode changes. */
    method WriteBlock(b: nat, blk: Block)
      requires Sound() && b < geo.totalBlocks && |blk| == geo.blockBytes
      requires b in owner ==> owner[b].1.Leaf?
      modifies this`disk
      ensures Sound() && disk == old(disk)[b := blk]
      ensures forall i: nat, l: Loc :: Ptr(St(), i, l) == old(Ptr(St(), i, l))
    {
      BlockWrite(St(), owner, b, blk);
      LinkedSame(St(), St().(disk := disk[b := blk]), owner);
      disk := disk[b := blk];
    }

    /** myfs_bitmap_alloc_zeroed. */
    method AllocZeroed() returns (lba: nat)
      requires Sound() && loose !! owner.Keys
      modifies this`blockMap, this`bits, this`loose, this`disk
      ensures Sound() && loose !! owner.Keys
      ensures lba == 0 ==> bits == old(bits) && loose == old(loose) && disk == old(disk)
      ensures lba == 0 <==> forall b :: geo.dataStart <= b < geo.totalBlocks ==> old(bits[b])
      ensures lba != 0 ==>
        && geo.dataStart <= lba < geo.totalBlocks
        && lba !in owner && lba !in old(loose) && loose == old(loose) + {lba}
        && disk == old(disk)[lba := Zeros(geo.blockBytes)]
        && (forall j: nat :: Slot(disk, lba, j) == 0)
        && bits == old(bits)[lba := true]
      ensures lba == 0 <==> Free(geo, old(bits)) == {}
      ensures lba != 0 ==> |Free(geo, bits)| + 1 == |Free(geo, old(bits))|
      ensures forall i: nat, l: Loc :: Ptr(St(), i, l) == old(Ptr(St(), i, l))
    {
      lba := BitmapAlloc();
      if lba == 0 { return; }
      WriteBlock(lba, Zeros(geo.blockBytes));
      ZeroSlots(disk, lba);
    }

    /** The pointer graph has just changed at one place, from 0 to the block `p` in transit. */
    ghost method Adopt(s: Store, ino: nat, loc: Loc, p: u32)
      requires Shape(geo, St(), bits) && Linked(s, owner) && Bitmapped(geo, bits, owner, loose) && Shows(blockMap, bits)
      requires |s.disk| == |disk| && s.nodes.Keys == nodes.Keys && ino in nodes
      requires Ptr(s, ino, loc) == 0 && Repointed(s, St(), ino, loc, p)
      requires p in loose && p !in owner && p != 0
      modifies this`owner, this`loose
      ensures Sound() && loose == old(loose) - {p}
      ensures owner == Reown(old(owner), 0, p, (ino, loc))
      ensures owner.Keys == old(owner.Keys) + {p}
    {
      Relink(s, St(), owner, ino, loc, p);
      Hook(geo, bits, owner, loose, p, (ino, loc));
      owner := Reown(owner, 0, p, (ino, loc));
      loose := loose - {p};
    }

    /** Creates the single-indirect table of an inode that has none. */
    method CreateSingle(ino: nat) returns (ok: bool)
      requires Sound() && loose !! owner.Keys && ino in nodes && nodes[ino].single == 0
      modifies this`disk, this`blockMap, this`bits, this`nodes, this`owner, this`loose
      ensures Sound() && loose == old(loose) && loose !! owner.Keys
      ensures TablesGrew(old(St()), old(owner), old(loose), ino, St(), owner)
      ensures ok <==> Ptr(St(), ino, Single) != 0
      ensures Tabled(geo, old(St()), old(bits), ino, Single, ok, St(), bits)
    {
      hide Free, Gained, Shows;
      var t := AllocZeroed();
      if t == 0 { return false; }
      ghost var s := St();
      SingleCreate(s, ino, t);
      nodes := nodes[ino := nodes[ino].(single := t)];
      TableAdded(old(St()), owner, old(loose), ino, t, s, Single, St());
      RepointedTable(old(St()), St(), ino, Single, t);
      Adopt(s, ino, Single, t);
      return true;
    }

    /** Creates the double-indirect master table of an inode that has none. */
    method CreateDouble(ino: nat) returns (ok: bool)
      requires Sound() && loose !! owner.Keys && ino in nodes && nodes[ino].double == 0
      modifies this`disk, this`blockMap, this`bits, this`nodes, this`owner, this`loose
      ensures Sound() && loose == old(loose) && loose !! owner.Keys
      ensures TablesGrew(old(St()), old(owner), old(loose), ino, St(), owner)
      ensures ok <==> Ptr(St(), ino, Double) != 0
      ensures Tabled(geo, old(St()), old(bits), ino, Double, ok, St(), bits)
    {
      hide Free, Gained, Shows;
      var t := AllocZeroed();
      if t == 0 { return false; }
      ghost var s := St();
      DoubleCreate(s, ino, t);
      nodes := nodes[ino := nodes[ino].(double := t)];
      TableAdded(old(St()), owner, old(loose), ino, t, s, Double, St());
      RepointedTable(old(St()), St(), ino, Double, t);
      Adopt(s, ino, Double, t);
      return true;
    }

    /** Creates second-level table `m`, absent so far from the master table. */
    method CreateSub(ino: nat, m: nat) returns (ok: bool)
      requires Sound() && loose !! owner.Keys && ino in nodes
      requires Ptr(St(), ino, Double) != 0 && Ptr(St(), ino, Sub(m)) == 0 && m < geo.Ptrs()
      modifies this`disk, this`blockMap, this`bits, this`nodes, this`owner, this`loose
      ensures Sound() && loose == old(loose) && loose !! owner.Keys
      ensures TablesGrew(old(St()), old(owner), old(loose), ino, St(), owner)
      ensures ok <==> Ptr(St(), ino, Sub(m)) != 0
      ensures Tabled(geo, old(St()), old(bits), ino, Sub(m), ok, St(), bits)
    {
      hide Free, Gained, Shows, Bitmapped, Linked, TablesGrew, Repointed, Reown;
      TablesGrewRefl(St(), owner, loose, ino);
      var t := AllocZeroed();
      if t == 0 { return false; }
      ghost var s := St();
      SubMade(geo, old(St()), bits, owner, old(loose), ino, m, t, s);
      disk := PutSlot(disk, nodes[ino].double, m, t);
      Adopt(s, ino, Sub(m), t);
      return true;
    }

    /** `p` is about to be stored in place of `before`: one of the two is the block in
        transit, the other is 0. */
    ghost predicate InTransit(before: u32, p: u32)
      reads this
    {
      || (before == 0 && p != 0 && p !in owner && loose == {p})
      || (before != 0 && p == 0 && loose == {before})
    }

    /** Ends a transit after the graph has changed at one place. */
    ghost method Settle(s: Store, ino: nat, loc: Loc, p: u32)
      requires Shape(geo, St(), bits) && Linked(s, owner) && Bitmapped(geo, bits, owner, loose) && Shows(blockMap, bits)
      requires |s.disk| == |disk| && s.nodes.Keys == nodes.Keys && ino in nodes
      requires InTransit(Ptr(s, ino, loc), p) && Repointed(s, St(), ino, loc, p)
      modifies this`owner, this`loose
      ensures Sound() && loose == {}
    {
      var before := Ptr(s, ino, loc);
      Relink(s, St(), owner, ino, loc, p);
      if p == 0 {
        Unhook(geo, bits, owner, loose, before, (ino, loc));
      } else {
        Hook(geo, bits, owner, loose, p, (ino, loc));
      }
      owner := Reown(owner, before, p, (ino, loc));
      loose := {};
    }

    /** Stores `phys` in a direct pointer. */
    method SetDirect(ino: nat, k: nat, phys: u32)
      requires Sound() && ino in nodes && k < DIRECT && InTransit(Ptr(St(), ino, Leaf(Direct(k))), phys)
      modifies this`nodes, this`owner, this`loose
      ensures Sound() && loose == {}
      ensures LeafSet(old(St()), old(owner), old(loose), ino, Direct(k), phys, St())
    {
      ghost var s := St();
      DirectWrite(s, ino, k, phys);
      nodes := nodes[ino := nodes[ino].(ptrs := nodes[ino].ptrs[k := phys])];
      Settle(s, ino, Leaf(Direct(k)), phys);
    }

    /** write_ptr_to_block on the single-indirect table. */
    method SetIndirect(ino: nat, k: nat, phys: u32)
      requires Sound() && ino in nodes && k < geo.Ptrs() && Ptr(St(), ino, Single) != 0
      requires InTransit(Ptr(St(), ino, Leaf(Indirect(k))), phys)
      modifies this`disk, this`owner, this`loose
      ensures Sound() && loose == {}
      ensures LeafSet(old(St()), old(owner), old(loose), ino, Indirect(k), phys, St())
    {
      ghost var s := St();
      SingleWrite(s, owner, ino, k, phys);
      disk := PutSlot(disk, nodes[ino].single, k, phys);
      Settle(s, ino, Leaf(Indirect(k)), phys);
    }

    /** write_ptr_to_block on second-level table `m`. */
    method SetNested(ino: nat, m: nat, k: nat, phys: u32)
      requires Sound() && ino in nodes && k < geo.Ptrs() && Ptr(St(), ino, Sub(m)) != 0
      requires InTransit(Ptr(St(), ino, Leaf(Nested(m, k))), phys)
      modifies this`disk, this`owner, this`loose
      ensures Sound() && loose == {}
      ensures LeafSet(old(St()), old(owner), old(loose), ino, Nested(m, k), phys, St())
    {
      ghost var s := St();
      NestedWrite(s, owner, ino, m, k, phys);
      disk := PutSlot(disk, Slot(disk, nodes[ino].double, m), k, phys);
      Settle(s, ino, Leaf(Nested(m, k)), phys);
    }

    /** myfs_map_block_to_inode: points logical block `idx` at `phys`, creating the tables
        on the way. It fails exactly past the largest file size or without a free block for each
        table lacking, and then leaves every data pointer as it was. */
    method MapBlock(ino: nat, idx: nat, phys: u32) returns (ok: bool)
      requires Sound() && ino in nodes && InTransit(Lba(geo, St(), ino, idx), phys)
      modifies this`disk, this`blockMap, this`bits, this`nodes, this`owner, this`loose
      ensures Sound()
      ensures ok ==> loose == {} && Remapped(geo, old(St()), old(owner), old(loose), ino, idx, phys, St())
      ensures !ok ==> loose == old(loose) && phys != 0 && phys !in owner
      ensures phys == 0 ==> bits == old(bits)
      ensures !ok ==> TablesGrew(old(St()), old(owner), old(loose), ino, St(), owner)
      ensures Fitted(geo, old(St()), old(bits), ino, PathOf(geo.Ptrs(), idx), ok, St(), bits)
    {
      TablesGrewRefl(St(), owner, loose, ino);
      var ptrs := geo.Ptrs();
      PathIs(ptrs, idx);
      if ptrs <= idx - DIRECT { SplitIs(idx - DIRECT - ptrs, ptrs); }
      if idx < DIRECT {
        SetDirect(ino, idx, phys);
        LacksIs(old(St()), ino, PathOf(ptrs, idx));
        RepointedLeaf(old(St()), St(), ino, Leaf(PathOf(ptrs, idx)), phys);
        FittedNow(geo, old(St()), bits, ino, PathOf(ptrs, idx), St());
        MapBlockSteps(geo, old(St()), old(owner), old(loose), ino, idx, phys, old(St()), old(owner), St());
        return true;
      }
      var rel := idx - DIRECT;
      if rel < ptrs {
        ok := MapIndirect(ino, idx, phys);
        return;
      }
      rel := rel - ptrs;
      if rel < ptrs * ptrs {
        ok := MapNested(ino, idx, rel / ptrs, rel % ptrs, phys);
        return;
      }
      return false;
    }

    /** The single-indirect case. */
    method MapIndirect(ino: nat, idx: nat, phys: u32) returns (ok: bool)
      requires Sound() && ino in nodes && InTransit(Lba(geo, St(), ino, idx), phys)
      requires DIRECT <= idx < DIRECT + geo.Ptrs()
      modifies this`disk, this`blockMap, this`bits, this`nodes, this`owner, this`loose
      ensures Sound()
      ensures ok ==> loose == {} && Remapped(geo, old(St()), old(owner), old(loose), ino, idx, phys, St())
      ensures !ok ==> loose == old(loose) && phys != 0 && phys !in owner
      ensures phys == 0 ==> bits == old(bits)
      ensures !ok ==> TablesGrew(old(St()), old(owner), old(loose), ino, St(), owner)
      ensures Fitted(geo, old(St()), old(bits), ino, PathOf(geo.Ptrs(), idx), ok, St(), bits)
    {
      hide Fitted, Tabled, Bitmapped, Linked, TablesGrew, Remapped, LeafSet;
      TablesGrewRefl(St(), owner, loose, ino);
      ghost var p := PathOf(geo.Ptrs(), idx);
      if nodes[ino].single == 0 {
        ok := CreateSingle(ino);
        if !ok {
          FittedSingle(geo, old(St()), old(bits), ino, p, false, St(), bits, St());
          return;
        }
      }
      ghost var s1, owner1 := St(), owner;
      GrewLeaf(old(St()), old(owner), old(loose), ino, s1, owner1, p);
      SetIndirect(ino, idx - DIRECT, phys);
      LeafTables(s1, owner1, old(loose), ino, p, phys, St());
      LacksIs(old(St()), ino, p);
      if old(nodes[ino].single) == 0 {
        FittedSingle(geo, old(St()), old(bits), ino, p, true, s1, bits, St());
      } else {
        FittedNow(geo, old(St()), bits, ino, p, St());
      }
      MapBlockSteps(geo, old(St()), old(owner), old(loose), ino, idx, phys, s1, owner1, St());
      return true;
    }

    /** The double-indirect case: entry `k` of second-level table `m`. */
    method MapNested(ino: nat, idx: nat, m: nat, k: nat, phys: u32) returns (ok: bool)
      requires Sound() && ino in nodes && InTransit(Lba(geo, St(), ino, idx), phys)
      requires PathOf(geo.Ptrs(), idx) == Nested(m, k) && m < geo.Ptrs() && k < geo.Ptrs()
      modifies this`disk, this`blockMap, this`bits, this`nodes, this`owner, this`loose
      ensures Sound()
      ensures ok ==> loose == {} && Remapped(geo, old(St()), old(owner), old(loose), ino, idx, phys, St())
      ensures !ok ==> loose == old(loose) && phys != 0 && phys !in owner
      ensures phys == 0 ==> bits == old(bits)
      ensures !ok ==> TablesGrew(old(St()), old(owner), old(loose), ino, St(), owner)
      ensures Fitted(geo, old(St()), old(bits), ino, PathOf(geo.Ptrs(), idx), ok, St(), bits)
    {
      hide Bitmapped, Linked, Fitted, TablesGrew, Remapped, PathOf;
      if nodes[ino].double != 0 {
        ok := MapSub(ino, idx, m, k, phys);
        return;
      }
      ghost var p := PathOf(geo.Ptrs(), idx);
      assert phys != 0;
      ok := CreateDouble(ino);
      if !ok {
        FittedDouble(geo, old(St()), old(bits), ino, p, false, St(), bits, false, St(), bits);
        return;
      }
      ghost var s1, owner1, bits1 := St(), owner, bits;
      GrewLeaf(old(St()), old(owner), old(loose), ino, s1, owner1, p);
      NoSubs(geo, old(St()), old(bits), ino, s1, bits1, m);
      ok := MapSub(ino, idx, m, k, phys);
      FittedDouble(geo, old(St()), old(bits), ino, p, true, s1, bits1, ok, St(), bits);
      if ok {
        GrewRemapped(geo, old(St()), old(owner), old(loose), ino, s1, owner1, idx, phys, St());
      } else {
        TablesGrewTrans(old(St()), old(owner), old(loose), ino, s1, owner1, St(), owner);
      }
    }

    /** The same with the master table in place. */
    method MapSub(ino: nat, idx: nat, m: nat, k: nat, phys: u32) returns (ok: bool)
      requires Sound() && ino in nodes && InTransit(Lba(geo, St(), ino, idx), phys) && Ptr(St(), ino, Double) != 0
      requires PathOf(geo.Ptrs(), idx) == Nested(m, k) && m < geo.Ptrs() && k < geo.Ptrs()
      modifies this`disk, this`blockMap, this`bits, this`nodes, this`owner, this`loose
      ensures Sound()
      ensures ok ==> loose == {} && Remapped(geo, old(St()), old(owner), old(loose), ino, idx, phys, St())
      ensures !ok ==> loose == old(loose) && phys != 0 && phys !in owner
      ensures phys == 0 ==> bits == old(bits)
      ensures !ok ==> TablesGrew(old(St()), old(owner), old(loose), ino, St(), owner)
      ensures Fitted(geo, old(St()), old(bits), ino, PathOf(geo.Ptrs(), idx), ok, St(), bits)
    {
      hide Fitted, Tabled, Bitmapped, Linked, TablesGrew, Remapped, LeafSet, PathOf;
      TablesGrewRefl(St(), owner, loose, ino);
      ghost var p := PathOf(geo.Ptrs(), idx);
      LacksIs(St(), ino, p);
      if Slot(disk, nodes[ino].double, m) == 0 {
        ok := CreateSub(ino, m);
        if !ok {
          FittedSub(geo, old(St()), old(bits), ino, p, false, St(), bits, St());
          return;
        }
      }
      ghost var s1, owner1 := St(), owner;
      GrewLeaf(old(St()), old(owner), old(loose), ino, s1, owner1, p);
      SetNested(ino, m, k, phys);
      LeafTables(s1, owner1, old(loose), ino, p, phys, St());
      if old(Ptr(St(), ino, Sub(m))) == 0 {
        FittedSub(geo, old(St()), old(bits), ino, p, true, s1, bits, St());
      } else {
        FittedNow(geo, old(St()), bits, ino, p, St());
      }
      MapBlockSteps(geo, old(St()), old(owner), old(loose), ino, idx, phys, s1, owner1, St());
      return true;
    }

    /** Sets an inode's block count and size; pointers, disk and bitmap stay. */
    method Record(ino: nat, blockCount: nat, size: u32)
      requires Sound() && ino in nodes
      modifies this`nodes
      ensures Sound() && nodes == old(nodes)[ino := old(nodes[ino]).(blockCount := blockCount, size := size)]
      ensures forall i: nat, l: Loc :: Ptr(St(), i, l) == old(Ptr(St(), i, l))
    {
      ghost var s := St();
      nodes := nodes[ino := nodes[ino].(blockCount := blockCount, size := size)];
      SameWhere(s, St(), ino);
      LinkedSame(s, St(), owner);
    }

    /** bitmap_clear on a block. An unowned block in transit becomes free; an owned one
        enters transit until its pointer is removed. */
    method ClearBit(b: nat)
      requires Sound() && geo.dataStart <= b < geo.totalBlocks && bits[b]
      modifies this`blockMap, this`bits, this`loose
      ensures Sound() && bits == old(bits)[b := false]
      ensures loose == if b in old(loose) then old(loose) - {b} else old(loose) + {b}
    {
      hide Shows, Clear;
      ShowsClear(blockMap, bits, b);
      blockMap, bits := Clear(blockMap, b), bits[b := false];
      loose := if b in loose then loose - {b} else loose + {b};
    }

    /** myfs_block_lba_get. */
    method BlockLba(ino: nat, idx: nat) returns (lba: nat)
      requires Sound() && ino in nodes
      ensures lba == Lba(geo, St(), ino, idx)
      ensures lba != 0 ==>
        && geo.dataStart <= lba < geo.totalBlocks && |disk[lba]| == geo.blockBytes
        && lba in owner && owner[lba] == (ino, Leaf(PathOf(geo.Ptrs(), idx)))
    {
      lba := LbaGet(geo.Ptrs(), disk, nodes[ino], idx);
      assert lba == Ptr(St(), ino, Leaf(PathOf(geo.Ptrs(), idx)));
    }
  }
}
