/** How each write MyFS makes changes the pointer graph of a volume. Every lemma says
    that exactly one place of one inode stores something new, although tables live on
    the same disk as the data and as the tables of all other inodes. */
module FsGraph {
  import opened Bytes
  import opened FsLayout

  /** Read-modify-write of one slot of a table block. */
  function PutSlot(disk: seq<Block>, t: nat, k: nat, v: u32): (r: seq<Block>)
    requires t < |disk| && 4 * k + 4 <= |disk[t]|
    ensures |r| == |disk| && forall b :: 0 <= b < |disk| && b != t ==> r[b] == disk[b]
    ensures |r[t]| == |disk[t]|
    ensures forall a: nat, j: nat :: Slot(r, a, j) == if a == t && j == k then v else Slot(disk, a, j)
  {
    var r := disk[t := Splice(disk[t], 4 * k, WordBytes(v))];
    PutSlotLaw(disk, t, k, v, r);
    r
  }

  lemma PutSlotLaw(disk: seq<Block>, t: nat, k: nat, v: u32, r: seq<Block>)
    requires t < |disk| && 4 * k + 4 <= |disk[t]|
    requires r == disk[t := Splice(disk[t], 4 * k, WordBytes(v))]
    ensures forall a: nat, j: nat :: Slot(r, a, j) == if a == t && j == k then v else Slot(disk, a, j)
  {
    forall a: nat, j: nat ensures Slot(r, a, j) == if a == t && j == k then v else Slot(disk, a, j) {
      if a == t && 4 * j + 4 <= |disk[t]| { WordSplice(disk[t], k, v, j); }
    }
  }

  lemma ZeroSlots(disk: seq<Block>, t: nat)
    requires t < |disk| && forall k :: 0 <= k < |disk[t]| ==> disk[t][k] == 0
    ensures forall j: nat :: Slot(disk, t, j) == 0
  {
  }

  /** A block that is not a table can be overwritten without touching the graph. */
  lemma BlockWrite(s: Store, owner: Owners, b: nat, blk: Block)
    requires Linked(s, owner) && b < |s.disk| && (b in owner ==> owner[b].1.Leaf?)
    ensures forall i: nat, l: Loc :: Ptr(s.(disk := s.disk[b := blk]), i, l) == Ptr(s, i, l)
  {
    forall i: nat, l: Loc ensures Ptr(s.(disk := s.disk[b := blk]), i, l) == Ptr(s, i, l) {
      assert Ptr(s, i, Single) == b ==> b == 0;
      assert Ptr(s, i, Double) == b ==> b == 0;
      if l.Leaf? && l.path.Nested? { assert Ptr(s, i, Sub(l.path.table)) == b ==> b == 0; }
    }
  }

  lemma DirectWrite(s: Store, ino: nat, k: nat, p: u32)
    requires ino in s.nodes && k < |s.nodes[ino].ptrs|
    ensures var nd := s.nodes[ino];
            Repointed(s, s.(nodes := s.nodes[ino := nd.(ptrs := nd.ptrs[k := p])]), ino, Leaf(Direct(k)), p)
  {
  }

  /** Writing a slot of the single-indirect table. */
  lemma SingleWrite(s: Store, owner: Owners, ino: nat, k: nat, p: u32)
    requires Linked(s, owner) && ino in s.nodes && Ptr(s, ino, Single) != 0
    requires 4 * k + 4 <= |s.disk[Ptr(s, ino, Single)]|
    ensures Repointed(s, s.(disk := PutSlot(s.disk, s.nodes[ino].single, k, p)), ino, Leaf(Indirect(k)), p)
  {
    var t := Ptr(s, ino, Single);
    var s' := s.(disk := PutSlot(s.disk, t, k, p));
    forall i: nat, l: Loc
      ensures Ptr(s', i, l) == if i == ino && l == Leaf(Indirect(k)) then p else Ptr(s, i, l)
    {
      assert Ptr(s, i, Single) == t ==> i == ino;
      assert Ptr(s, i, Double) != t;
      if l.Leaf? && l.path.Nested? { assert Ptr(s, i, Sub(l.path.table)) != t; }
    }
  }

  /** Writing a slot of an existing second-level table. */
  lemma NestedWrite(s: Store, owner: Owners, ino: nat, m: nat, k: nat, p: u32)
    requires Linked(s, owner) && ino in s.nodes && Ptr(s, ino, Sub(m)) != 0
    requires 4 * k + 4 <= |s.disk[Ptr(s, ino, Sub(m))]|
    ensures Repointed(s, s.(disk := PutSlot(s.disk, Ptr(s, ino, Sub(m)), k, p)), ino, Leaf(Nested(m, k)), p)
  {
    var t := Ptr(s, ino, Sub(m));
    var s' := s.(disk := PutSlot(s.disk, t, k, p));
    forall i: nat, l: Loc
      ensures Ptr(s', i, l) == if i == ino && l == Leaf(Nested(m, k)) then p else Ptr(s, i, l)
    {
      assert Ptr(s, i, Single) != t;
      assert Ptr(s, i, Double) != t;
      if l.Leaf? && l.path.Nested? {
        assert Ptr(s, i, Sub(l.path.table)) == t ==> i == ino && l.path.table == m;
      }
    }
  }

  /** Hooking a zeroed block in as the single-indirect table adds one place, not any data. */
  lemma SingleCreate(s: Store, ino: nat, t: u32)
    requires ino in s.nodes && s.nodes[ino].single == 0 && forall j: nat :: Slot(s.disk, t, j) == 0
    ensures Repointed(s, s.(nodes := s.nodes[ino := s.nodes[ino].(single := t)]), ino, Single, t)
  {
  }

  lemma DoubleCreate(s: Store, ino: nat, t: u32)
    requires ino in s.nodes && s.nodes[ino].double == 0 && forall j: nat :: Slot(s.disk, t, j) == 0
    ensures Repointed(s, s.(nodes := s.nodes[ino := s.nodes[ino].(double := t)]), ino, Double, t)
  {
  }

  /** Hooking a zeroed block in as second-level table `m`. */
  lemma SubCreate(s: Store, owner: Owners, ino: nat, m: nat, t: u32)
    requires Linked(s, owner) && ino in s.nodes && Ptr(s, ino, Double) != 0 && Ptr(s, ino, Sub(m)) == 0
    requires 4 * m + 4 <= |s.disk[Ptr(s, ino, Double)]|
    requires t != s.nodes[ino].double && forall j: nat :: Slot(s.disk, t, j) == 0
    ensures Repointed(s, s.(disk := PutSlot(s.disk, s.nodes[ino].double, m, t)), ino, Sub(m), t)
  {
    var d := Ptr(s, ino, Double);
    var s' := s.(disk := PutSlot(s.disk, d, m, t));
    forall i: nat, l: Loc ensures Ptr(s', i, l) == if i == ino && l == Sub(m) then t else Ptr(s, i, l) {
      assert Ptr(s, i, Single) != d;
      assert Ptr(s, i, Double) == d ==> i == ino;
      if l.Leaf? && l.path.Nested? { assert Ptr(s, i, Sub(l.path.table)) != d; }
    }
  }

  lemma LinkedSame(s: Store, s': Store, owner: Owners)
    requires Linked(s, owner) && |s'.disk| == |s.disk| && s'.nodes.Keys == s.nodes.Keys
    requires forall i: nat, l: Loc :: Ptr(s', i, l) == Ptr(s, i, l)
    ensures Linked(s', owner)
  {
  }
}
