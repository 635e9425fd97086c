/** Operations on the directory tree: unlink, rename, create, remove. */
module FsTree {
  import opened Common
  import opened Bytes
  import opened FsNames
  import opened FsRecords
  import opened FsLayout
  import opened FsSpace
  import opened FsVolume
  import opened FsFile
  import opened FsInode
  import opened FsDir

  const ENOENT := 2
  const EEXIST := 17
  const ENOTDIR := 20
  const ENOTEMPTY := 90

  /** The inode an entry names, if the entry and the inode exist. */
  function Target(g: Geometry, s: Store, d: nat, name: Name): set<nat>
    requires g.Ok()
  {
    var m := Listing(g, s, d);
    if name in m && m[name] in s.nodes then {m[name]} else {}
  }

  lemma FreedDirs(g: Geometry, s: Store, s': Store, gone: set<nat>)
    requires g.Ok() && DirsOk(g, s) && s'.nodes.Keys == s.nodes.Keys - gone
    requires forall i :: i in s'.nodes ==> SameFile(g, s, s', i)
    ensures DirsOk(g, s') && forall d :: d in s'.nodes ==> Listing(g, s', d) == Listing(g, s, d)
  {
    forall d | d in s'.nodes ensures Listing(g, s', d) == Listing(g, s, d) { assert SameFile(g, s, s', d); }
  }

  /** `name` is gone from `d`, the inodes `gone` are freed, no other file changed. */
  ghost predicate Unlinked(g: Geometry, s: Store, s': Store, d: nat, name: Name, gone: set<nat>)
    requires g.Ok()
  {
    && d in s.nodes && d !in gone && s'.nodes.Keys == s.nodes.Keys - gone
    && s'.nodes[d].kind == s.nodes[d].kind && s'.nodes[d].size <= s.nodes[d].size
    && Listing(g, s', d) == Listing(g, s, d) - {name}
    && forall i :: i in s'.nodes && i != d ==> SameFile(g, s, s', i)
  }

  lemma UnlinkedSteps(g: Geometry, s: Store, s1: Store, s': Store, d: nat, name: Name, gone: set<nat>)
    requires g.Ok() && d in s.nodes && d !in gone && s1.nodes.Keys == s.nodes.Keys - gone
    requires forall i :: i in s1.nodes ==> SameFile(g, s, s1, i)
    requires Delisted(g, s1, s', d, name)
    ensures Unlinked(g, s, s', d, name, gone)
  {
    assert SameFile(g, s, s1, d);
    forall i | i in s'.nodes && i != d ensures SameFile(g, s, s', i) {
      assert SameFile(g, s, s1, i) && SameFile(g, s1, s', i);
    }
  }

  /** Frees the inode an entry names, then removes the entry. */
  method FreeAndDelist(v: Volume, d: nat, name: Name, target: nat) returns (r: int)
    requires FsOk(v) && d in v.nodes && d != target
    modifies v
    ensures FsOk(v)
    ensures Unlinked(v.geo, old(v.St()), v.St(), d, name, {target})
    ensures r == if name in Listing(v.geo, old(v.St()), d) then 0 else -1
    ensures r == 0 ==> RoomAfter(v.geo, v.St(), FreeBlocks(v), d, RECORD)
  {
    hide Linked, Bitmapped, Content, DirsOk, AllDense, RoomFor, Trimmed, Free;
    ghost var s := v.St();
    if target in v.nodes { InodeFree(v, target); }
    ghost var s1, bits1 := v.St(), v.bits;
    assert s1.nodes.Keys == s.nodes.Keys - {target};
    assert forall i :: i in s1.nodes ==> SameFile(v.geo, s, s1, i);
    FreedDirs(v.geo, s, s1, {target});
    assert SameFile(v.geo, s, s1, d);
    r := DirRm(v, d, name);
    UnlinkedSteps(v.geo, s, s1, v.St(), d, name, {target});
    if r == 0 { RoomForRecord(v.geo, s1, bits1, d, v.St(), v.bits); }
  }

  /** Where a record was removed there is room for one. */
  lemma RoomForRecord(g: Geometry, s: Store, bits: seq<bool>, d: nat, s': Store, bits': seq<bool>)
    requires g.Ok() && AllDense(g, s) && d in s.nodes && s.nodes[d].size >= RECORD
    requires Trimmed(g, s, bits, d, s.nodes[d].size - RECORD, s', bits')
    ensures RoomAfter(g, s', |Free(g, bits')|, d, RECORD)
  {
    hide PathOf, Free, RoomFor;
    EnoughBlocks(g, s, d, s.nodes[d].size);
    RoomBack(g, s, bits, d, s.nodes[d].size - RECORD, s', bits', BlocksOf(s.nodes[d].size, g.blockBytes));
  }

  /** myfs_unlink: frees the named inode and removes its entry. */
  method Unlink(v: Volume, d: nat, name: Name) returns (r: int)
    requires FsOk(v) && d in v.nodes
    requires d !in Target(v.geo, v.St(), d, name)
    modifies v
    ensures FsOk(v)
    ensures Unlinked(v.geo, old(v.St()), v.St(), d, name, Target(v.geo, old(v.St()), d, name))
    ensures r == if name in Listing(v.geo, old(v.St()), d) then 0 else -ENOENT
    ensures r == 0 ==> RoomAfter(v.geo, v.St(), FreeBlocks(v), d, RECORD)
    ensures r != 0 ==> v.St() == old(v.St()) && v.bits == old(v.bits)
  {
    hide Content, Listing, Linked, Bitmapped, DirsOk, AllDense, RoomFor, Unlinked;
    var target := Lookup(v, d, name);
    if target == -1 {
      NothingUnlinked(v.geo, v.St(), d, name);
      return -ENOENT;
    }
    r := FreeAndDelist(v, d, name, target);
    UnlinkedTarget(v.geo, old(v.St()), v.St(), d, name, target);
  }

  lemma NothingUnlinked(g: Geometry, s: Store, d: nat, name: Name)
    requires g.Ok() && d in s.nodes && name !in Listing(g, s, d)
    ensures Unlinked(g, s, s, d, name, Target(g, s, d, name))
  {
  }

  lemma UnlinkedTarget(g: Geometry, s: Store, s': Store, d: nat, name: Name, target: nat)
    requires g.Ok() && Unlinked(g, s, s', d, name, {target})
    requires name in Listing(g, s, d) && target == Listing(g, s, d)[name]
    ensures Unlinked(g, s, s', d, name, Target(g, s, d, name))
  {
  }

  /** A directory's size in records is the number of names it lists. */
  lemma CountNames(g: Geometry, s: Store, d: nat)
    requires g.Ok() && d in s.nodes && s.nodes[d].kind == Directory && DirOk(Content(g, s, d))
    ensures s.nodes[d].size / RECORD == |Listing(g, s, d)|
  {
    FlattenRecords(Content(g, s, d));
    DirSize(EntriesIn(Content(g, s, d)));
  }

  /** What myfs_remove_dir answers: only a directory that lists at most two names can go. */
  function RemoveDirResult(g: Geometry, s: Store, d: nat, name: Name): int
    requires g.Ok()
  {
    var m := Listing(g, s, d);
    if name !in m || m[name] !in s.nodes then -ENOENT
    else if s.nodes[m[name]].kind != Directory then -ENOTDIR
    else if |Listing(g, s, m[name])| > 2 then -ENOTEMPTY
    else 0
  }

  /** myfs_remove_dir. */
  method RemoveDir(v: Volume, d: nat, name: Name) returns (r: int)
    requires FsOk(v) && d in v.nodes
    requires d !in Target(v.geo, v.St(), d, name)
    modifies v
    ensures FsOk(v)
    ensures r == RemoveDirResult(v.geo, old(v.St()), d, name)
    ensures r == 0 ==> Unlinked(v.geo, old(v.St()), v.St(), d, name, Target(v.geo, old(v.St()), d, name))
    ensures r != 0 ==> v.St() == old(v.St())
  {
    hide Content, Listing;
    var target := Lookup(v, d, name);
    if target == -1 { return -ENOENT; }
    if target !in v.nodes { return -ENOENT; }
    if v.nodes[target].kind != Directory { return -ENOTDIR; }
    CountNames(v.geo, v.St(), target);
    if v.nodes[target].size / RECORD > 2 { return -ENOTEMPTY; }
    r := FreeAndDelist(v, d, name, target);
    UnlinkedTarget(v.geo, old(v.St()), v.St(), d, name, target);
  }

  /** The entries of directory `d` after `oldName` moved from `from` to `newName` in `to`. */
  function Moved(m: map<Name, u32>, d: nat, from: nat, oldName: Name, to: nat, newName: Name, ino: u32): map<Name,
    u32> {
    var rest := if d == from then m - {oldName} else m;
    if d == to then rest[newName := ino] else rest
  }

  /** A completed rename: every directory lists exactly what it should, the inode that
      `newName` named before is gone, and no other file changed. */
  ghost predicate Renamed(g: Geometry, s: Store, s': Store, from: nat, oldName: Name, to: nat, newName: Name,
    ino: u32, gone: set<nat>)
    requires g.Ok()
  {
    && s'.nodes.Keys == s.nodes.Keys - gone
    && (forall d :: d in s'.nodes ==> Listing(g, s', d) == Moved(Listing(g, s, d), d, from, oldName, to, newName, ino))
    && (forall i :: i in s'.nodes && i != from && i != to ==> SameFile(g, s, s', i))
    && (forall i :: i in s'.nodes ==> s'.nodes[i].kind == s.nodes[i].kind)
  }

  function Stripped(m: map<Name, u32>, d: nat, from: nat, oldName: Name, to: nat, newName: Name): map<Name, u32> {
    m - (if d == from then {oldName} else {}) - (if d == to then {newName} else {})
  }

  /** A rename that ran out of space: both names are gone and the inode is in neither directory. */
  ghost predicate Lost(g: Geometry, s: Store, s': Store, from: nat, oldName: Name, to: nat, newName: Name,
    gone: set<nat>)
    requires g.Ok()
  {
    && s'.nodes.Keys == s.nodes.Keys - gone
    && (forall d :: d in s'.nodes ==> Listing(g, s', d) == Stripped(Listing(g, s, d), d, from, oldName, to, newName))
    && (forall i :: i in s'.nodes && i != from && i != to ==> SameFile(g, s, s', i))
    && (forall i :: i in s'.nodes ==> s'.nodes[i].kind == s.nodes[i].kind)
  }

  lemma LostAt(g: Geometry, s: Store, s1: Store, s': Store, from: nat, oldName: Name, to: nat, newName: Name,
    gone: set<nat>, d: nat)
    requires g.Ok() && from in s.nodes && to in s.nodes && d in s'.nodes
    requires Delisted(g, s, s1, from, oldName) && Unlinked(g, s1, s', to, newName, gone)
    ensures Listing(g, s', d) == Stripped(Listing(g, s, d), d, from, oldName, to, newName)
  {
    hide Content, Listing, EntriesAfter;
    if d != from { SameListings(g, s, s1, d); }
    if d != to { SameListings(g, s1, s', d); }
  }

  lemma LostSteps(g: Geometry, s: Store, s1: Store, s': Store, from: nat, oldName: Name, to: nat, newName: Name,
    gone: set<nat>)
    requires g.Ok() && from in s.nodes && to in s.nodes
    requires Delisted(g, s, s1, from, oldName) && Unlinked(g, s1, s', to, newName, gone)
    ensures Lost(g, s, s', from, oldName, to, newName, gone)
  {
    forall i | i in s'.nodes && i != from && i != to ensures SameFile(g, s, s', i) {
      assert SameFile(g, s, s1, i) && SameFile(g, s1, s', i);
    }
    forall i | i in s'.nodes ensures s'.nodes[i].kind == s.nodes[i].kind {
      if i != from { assert SameFile(g, s, s1, i); }
      if i != to { assert SameFile(g, s1, s', i); }
    }
    forall d | d in s'.nodes ensures Listing(g, s', d) == Stripped(Listing(g, s, d), d, from, oldName, to, newName) {
      LostAt(g, s, s1, s', from, oldName, to, newName, gone, d);
    }
  }

  lemma StripThenAdd(m: map<Name, u32>, d: nat, from: nat, oldName: Name, to: nat, newName: Name, ino: u32)
    ensures var m2 := Stripped(m, d, from, oldName, to, newName);
      Moved(m, d, from, oldName, to, newName, ino) == if d == to then m2[newName := ino] else m2
  {
  }

  lemma RenamedStep(g: Geometry, s: Store, s2: Store, s': Store, from: nat, oldName: Name, to: nat, newName: Name,
    ino: u32, gone: set<nat>)
    requires g.Ok() && Lost(g, s, s2, from, oldName, to, newName, gone) && DirsOk(g, s2)
    requires Addable(g, s2, to, newName) && Appended(g, s2, s', to, MakeRec(newName, ino))
    requires NoNul(newName) && |newName| < NAME
    ensures DirsOk(g, s') && Renamed(g, s, s', from, oldName, to, newName, ino, gone)
  {
    AddedListing(g, s2, s', to, newName, ino);
    forall i | i in s'.nodes && i != from && i != to ensures SameFile(g, s, s', i) {
      assert SameFile(g, s, s2, i) && SameFile(g, s2, s', i);
    }
    forall i | i in s'.nodes ensures s'.nodes[i].kind == s2.nodes[i].kind {
      if i != to { assert SameFile(g, s2, s', i); }
    }
    forall d | d in s'.nodes
      ensures Listing(g, s', d) == Moved(Listing(g, s, d), d, from, oldName, to, newName, ino)
    {
      StripThenAdd(Listing(g, s, d), d, from, oldName, to, newName, ino);
      if d != to { SameListings(g, s2, s', d); }
    }
  }

  /** The blocks that `d` gives back when it loses a record. */
  function Surplus(g: Geometry, s: Store, d: nat): nat
    requires g.Ok() && d in s.nodes
  {
    var n := if s.nodes[d].size < RECORD then 0 else BlocksOf(s.nodes[d].size - RECORD, g.blockBytes);
    if s.nodes[d].blockCount < n then 0 else s.nodes[d].blockCount - n
  }

  /** When a rename keeps the entry: the new place is a directory, and it loses a record itself or
      has room for one once the old place has lost one. */
  ghost predicate RenameFits(g: Geometry, s: Store, bits: seq<bool>, from: nat, to: nat, newName: Name)
    requires g.Ok() && from in s.nodes && to in s.nodes
  {
    && s.nodes[to].kind == Directory
    && (from == to || newName in Listing(g, s, to)
      || RoomAfter(g, s, |Free(g, bits)| + Surplus(g, s, from), to, RECORD))
  }

  /** The room for the new record, seen before and after the old one was removed. */
  lemma RoomAfterRemoval(g: Geometry, s: Store, bits: seq<bool>, from: nat, s1: Store, bits1: seq<bool>, to: nat)
    requires g.Ok() && AllDense(g, s) && from in s.nodes && to in s.nodes && s.nodes[from].size >= RECORD
    requires Trimmed(g, s, bits, from, s.nodes[from].size - RECORD, s1, bits1) && to in s1.nodes
    ensures RoomAfter(g, s1, |Free(g, bits1)|, to, RECORD) <==>
      from == to || RoomAfter(g, s, |Free(g, bits)| + Surplus(g, s, from), to, RECORD)
  {
    hide PathOf, Free, RoomFor, Gained;
    if from == to {
      RoomForRecord(g, s, bits, from, s1, bits1);
    } else {
      assert Untouched(s, s1, to);
      RoomUntouched(g, s, s1, |Free(g, bits1)|, to, BlocksOf(s.nodes[to].size + RECORD, g.blockBytes));
    }
  }

  /** myfs_rename. Removing the old name and freeing what the new name names come first, so a
      rename that then finds no room has lost the entry. */
  method Rename(v: Volume, from: nat, oldName: Name, to: nat, newName: Name) returns (r: int)
    requires FsOk(v) && from in v.nodes && to in v.nodes && NoNul(newName) && |newName| < NAME
    requires from != to || newName != oldName ==>
      from !in Target(v.geo, v.St(), to, newName) && to !in Target(v.geo, v.St(), to, newName)
    modifies v
    ensures FsOk(v)
    ensures r == -1 || r == RECORD
    ensures oldName !in Listing(v.geo, old(v.St()), from) ==> r == -1 && v.St() == old(v.St())
    ensures oldName in Listing(v.geo, old(v.St()), from) ==>
      var s := old(v.St());
      var ino := Listing(v.geo, s, from)[oldName];
      var gone := if from == to && newName == oldName then {} else Target(v.geo, s, to, newName);
      && (r == RECORD ==> Renamed(v.geo, s, v.St(), from, oldName, to, newName, ino, gone))
      && (r == -1 ==> Lost(v.geo, s, v.St(), from, oldName, to, newName, gone))
      && (r == RECORD <==> RenameFits(v.geo, s, old(v.bits), from, to, newName))
  {
    hide Linked, Bitmapped, Content, DirsOk, AllDense, RoomAfter, Trimmed, Free, Lost, Renamed, Listing, Target,
      Delisted, Surplus;
    ghost var s := v.St();
    var ino := Lookup(v, from, oldName);
    if ino == -1 { return -1; }
    var _ := DirRm(v, from, oldName);
    ghost var s1, bits1 := v.St(), v.bits;
    TargetAfter(v.geo, s, s1, from, oldName, to, newName);
    DelistedKinds(v.geo, s, s1, from, oldName, to, newName);
    RoomAfterRemoval(v.geo, s, old(v.bits), from, s1, bits1, to);
    r := RenameInto(v, to, newName, ino, s, from, oldName);
  }

  lemma DelistedKinds(g: Geometry, s: Store, s1: Store, from: nat, oldName: Name, to: nat, newName: Name)
    requires g.Ok() && from in s.nodes && to in s.nodes && Delisted(g, s, s1, from, oldName)
    ensures to in s1.nodes && s1.nodes[to].kind == s.nodes[to].kind && s1.nodes[to].size <= s.nodes[to].size
    ensures from != to ==> (newName in Listing(g, s1, to) <==> newName in Listing(g, s, to))
  {
    hide Content;
    if from != to {
      assert SameFile(g, s, s1, to);
      SameListings(g, s, s1, to);
    }
  }

  /** The target of the new name once the old name was removed. */
  lemma TargetAfter(g: Geometry, s: Store, s1: Store, from: nat, oldName: Name, to: nat, newName: Name)
    requires g.Ok() && from in s.nodes && to in s.nodes && Delisted(g, s, s1, from, oldName)
    ensures Target(g, s1, to, newName) == if from == to && newName == oldName then {} else Target(g, s, to, newName)
  {
    if to != from { SameListings(g, s, s1, to); }
  }

  lemma AllSameDirs(g: Geometry, s: Store, s': Store)
    requires g.Ok() && DirsOk(g, s) && AllSame(g, s, s')
    ensures DirsOk(g, s')
  {
    forall d | d in s'.nodes && s'.nodes[d].kind == Directory ensures DirOk(Content(g, s', d)) {
      assert SameFile(g, s, s', d);
    }
  }

  lemma LostStill(g: Geometry, s: Store, s2: Store, s': Store, from: nat, oldName: Name, to: nat, newName: Name,
    gone: set<nat>)
    requires g.Ok() && Lost(g, s, s2, from, oldName, to, newName, gone) && AllSame(g, s2, s') && DirsOk(g, s2)
    ensures Lost(g, s, s', from, oldName, to, newName, gone) && DirsOk(g, s')
  {
    AllSameDirs(g, s2, s');
    forall d | d in s'.nodes ensures Listing(g, s', d) == Listing(g, s2, d) { SameListings(g, s2, s', d); }
    forall i | i in s'.nodes && i != from && i != to ensures SameFile(g, s, s', i) {
      assert SameFile(g, s, s2, i) && SameFile(g, s2, s', i);
    }
    forall i | i in s'.nodes ensures s'.nodes[i].kind == s2.nodes[i].kind { assert SameFile(g, s2, s', i); }
  }

  /** The second half of myfs_rename. */
  method RenameInto(v: Volume, to: nat, newName: Name, ino: u32, ghost s: Store, ghost from: nat, ghost oldName: Name)
    returns (r: int)
    requires FsOk(v) && to in v.nodes && NoNul(newName) && |newName| < NAME
    requires from in s.nodes && to in s.nodes && Delisted(v.geo, s, v.St(), from, oldName)
    requires from !in Target(v.geo, v.St(), to, newName) && to !in Target(v.geo, v.St(), to, newName)
    modifies v
    ensures FsOk(v)
    ensures r == -1 || r == RECORD
    ensures var gone := Target(v.geo, old(v.St()), to, newName);
      && (r == RECORD ==> Renamed(v.geo, s, v.St(), from, oldName, to, newName, ino, gone))
      && (r == -1 ==> Lost(v.geo, s, v.St(), from, oldName, to, newName, gone))
    ensures var room := newName in Listing(v.geo, old(v.St()), to)
      || RoomAfter(v.geo, old(v.St()), old(FreeBlocks(v)), to, RECORD);
      r == RECORD <==> old(v.nodes[to].kind) == Directory && room
  {
    hide Linked, Bitmapped, Content, DirsOk, AllDense, RoomAfter, Free, Lost, Renamed, Listing, Delisted;
    ghost var s1 := v.St();
    ghost var gone := Target(v.geo, s1, to, newName);
    var _ := Unlink(v, to, newName);
    ghost var s2 := v.St();
    LostSteps(v.geo, s, s1, s2, from, oldName, to, newName, gone);
    r := DirAdd(v, to, newName, ino);
    if r != -1 {
      RenamedStep(v.geo, s, s2, v.St(), from, oldName, to, newName, ino, gone);
    } else {
      LostStill(v.geo, s, s2, v.St(), from, oldName, to, newName, gone);
    }
  }

  /** A new inode `ino` exists, empty so far, and everything else is as before. */
  ghost predicate NewInode(g: Geometry, s: Store, s': Store, ino: nat, kind: Kind)
    requires g.Ok()
  {
    && ino !in s.nodes && s'.nodes.Keys == s.nodes.Keys + {ino}
    && s'.nodes[ino].kind == kind && Content(g, s', ino) == []
    && forall i :: i in s.nodes ==> SameFile(g, s, s', i)
  }

  /** A new inode `ino` is listed as `name` in `d`; no other file changed. */
  ghost predicate Created(g: Geometry, s: Store, s': Store, d: nat, name: Name, ino: nat, kind: Kind,
    listing: map<Name, u32>)
    requires g.Ok()
  {
    && ino !in s.nodes && d in s.nodes && s'.nodes.Keys == s.nodes.Keys + {ino}
    && ino < U32
    && s'.nodes[ino].kind == kind && Listing(g, s', ino) == listing
    && s'.nodes[d].kind == s.nodes[d].kind && Listing(g, s', d) == Listing(g, s, d)[name := ino]
    && forall i :: i in s.nodes && i != d ==> SameFile(g, s, s', i)
  }

  lemma NewInodeDirs(g: Geometry, s: Store, s': Store, ino: nat, kind: Kind)
    requires g.Ok() && DirsOk(g, s) && NewInode(g, s, s', ino, kind)
    ensures DirsOk(g, s') && Listing(g, s', ino) == map[]
    ensures forall d :: d in s.nodes ==> Listing(g, s', d) == Listing(g, s, d)
  {
    forall d | d in s.nodes ensures Listing(g, s', d) == Listing(g, s, d) { SameListings(g, s, s', d); }
    forall d | d in s'.nodes && s'.nodes[d].kind == Directory ensures DirOk(Content(g, s', d)) {
      if d != ino { assert SameFile(g, s, s', d); }
    }
  }

  lemma CreatedSteps(g: Geometry, s: Store, s1: Store, s': Store, d: nat, name: Name, ino: nat, kind: Kind)
    requires g.Ok() && DirsOk(g, s) && NewInode(g, s, s1, ino, kind) && ino < U32 && d in s.nodes
    requires Addable(g, s1, d, name) && Appended(g, s1, s', d, MakeRec(name, ino)) && NoNul(name) && |name| < NAME
    ensures DirsOk(g, s') && Created(g, s, s', d, name, ino, kind, map[]) && Content(g, s', ino) == []
  {
    NewInodeDirs(g, s, s1, ino, kind);
    AddedListing(g, s1, s', d, name, ino);
    SameListings(g, s1, s', ino);
    forall i | i in s.nodes && i != d ensures SameFile(g, s, s', i) {
      assert SameFile(g, s, s1, i) && SameFile(g, s1, s', i);
    }
  }

  lemma RolledBack(g: Geometry, s: Store, s1: Store, s2: Store, s': Store, ino: nat, kind: Kind)
    requires g.Ok() && NewInode(g, s, s1, ino, kind) && AllSame(g, s1, s2)
    requires s'.nodes.Keys == s2.nodes.Keys - {ino} && forall i :: i in s'.nodes ==> SameFile(g, s2, s', i)
    ensures AllSame(g, s, s')
  {
    forall i | i in s.nodes ensures SameFile(g, s, s', i) {
      assert SameFile(g, s, s1, i) && SameFile(g, s1, s2, i) && SameFile(g, s2, s', i);
    }
  }

  /** What a new entry in `d` takes: an inode number, a block, and room for the record without
      that block. */
  ghost predicate CreateFits(g: Geometry, s: Store, free: nat, inodes: nat, d: nat)
    requires g.Ok() && d in s.nodes
  {
    s.nodes[d].kind == Directory && free > 0 && !NoneLeft(s, inodes) && RoomAfter(g, s, free - 1, d, RECORD)
  }

  ghost predicate NoneLeft(s: Store, inodes: nat) {
    forall i: nat :: i < inodes ==> i in s.nodes
  }

  /** The part common to myfs_create_file and myfs_create_dir: a new inode and its entry, or
      nothing at all. */
  method CreateEntry(v: Volume, d: nat, name: Name, kind: Kind) returns (r: int, ino: nat)
    requires FsOk(v) && d in v.nodes && NoNul(name) && |name| < NAME
    modifies v
    ensures FsOk(v) && r in {0, -1, -EEXIST}
    ensures r == 0 ==>
      Created(v.geo, old(v.St()), v.St(), d, name, ino, kind, map[]) && Content(v.geo, v.St(), ino) == []
    ensures r == 0 ==> v.nodes[ino].blockCount == 1
    ensures r != 0 ==> AllSame(v.geo, old(v.St()), v.St())
    ensures r == -EEXIST <==> name in Listing(v.geo, old(v.St()), d)
    ensures r == 0 <==>
      name !in Listing(v.geo, old(v.St()), d)
        && CreateFits(v.geo, old(v.St()), old(FreeBlocks(v)), old(|v.inodeBits|), d)
    ensures r == 0 ==> forall i: nat :: i < ino ==> i in old(v.nodes)
  {
    hide Linked, Bitmapped, Content, Listing, DirsOk, AllDense, RoomAfter, Free, Created;
    ghost var s, free := v.St(), FreeBlocks(v);
    ino := 0;
    var existing := Lookup(v, d, name);
    if existing != -1 { return -EEXIST, 0; }
    var n := InodeAlloc(v, kind);
    if n < 0 {
      SameAll(v.geo, s);
      return -1, 0;
    }
    ino := n;
    RoomWithout(v.geo, s, v.St(), ino, FreeBlocks(v), d, name);
    r := EnterNew(v, d, name, ino, kind, s);
  }

  lemma SameAll(g: Geometry, s: Store)
    requires g.Ok()
    ensures AllSame(g, s, s)
  {
  }

  lemma RoomWithout(g: Geometry, s: Store, s1: Store, ino: nat, free: nat, d: nat, name: Name)
    requires g.Ok() && OthersUntouched(s, s1, ino) && d in s.nodes && d != ino && SameFile(g, s, s1, d)
    ensures d in s1.nodes && s1.nodes[d].size == s.nodes[d].size && s1.nodes[d].kind == s.nodes[d].kind
    ensures RoomAfter(g, s1, free, d, RECORD) <==> RoomAfter(g, s, free, d, RECORD)
    ensures Addable(g, s1, d, name) <==> Addable(g, s, d, name)
  {
    hide Content, RoomFor;
    assert Untouched(s, s1, d);
    SameListings(g, s, s1, d);
    RoomUntouched(g, s, s1, free, d, BlocksOf(s.nodes[d].size + RECORD, g.blockBytes));
  }

  lemma NewInodeIn(g: Geometry, s: Store, s1: Store, ino: nat, kind: Kind, d: nat)
    requires g.Ok() && NewInode(g, s, s1, ino, kind) && d in s.nodes
    ensures d in s1.nodes && ino in s1.nodes && d != ino
  {
  }

  /** Enters a new inode in a directory, freeing it again if there is no room. */
  method EnterNew(v: Volume, d: nat, name: Name, ino: nat, kind: Kind, ghost s: Store) returns (r: int)
    requires Mounted(v) && DirsOk(v.geo, s) && NewInode(v.geo, s, v.St(), ino, kind)
    requires d in s.nodes && NoNul(name) && |name| < NAME && ino < U32
    modifies v
    ensures FsOk(v) && r in {0, -1}
    ensures r == 0 ==> Created(v.geo, s, v.St(), d, name, ino, kind, map[]) && Content(v.geo, v.St(), ino) == []
    ensures r == 0 ==> v.nodes[ino] == old(v.nodes[ino])
    ensures r != 0 ==> AllSame(v.geo, s, v.St())
    ensures r == 0 <==>
      Addable(v.geo, old(v.St()), d, name) && RoomAfter(v.geo, old(v.St()), old(FreeBlocks(v)), d, RECORD)
  {
    hide Linked, Bitmapped, Content, Listing, DirsOk, AllDense, RoomAfter, Free, Created, NewInode, AllSame, Addable,
      Appended;
    ghost var s1 := v.St();
    NewInodeIn(v.geo, s, s1, ino, kind, d);
    var w := DirAdd(v, d, name, ino);
    ghost var s2 := v.St();
    if w < 0 {
      InodeFree(v, ino);
      RolledBack(v.geo, s, s1, s2, v.St(), ino, kind);
      AllSameDirs(v.geo, s, v.St());
      return -1;
    }
    CreatedSteps(v.geo, s, s1, s2, d, name, ino, kind);
    return 0;
  }

  const DOT: Name := [46]
  const DOTDOT: Name := [46, 46]

  /** Adding an entry to a directory whose last block has room cannot fail. */
  method DirAddFits(v: Volume, d: nat, name: Name, ino: u32)
    requires FsOk(v) && d in v.nodes && Addable(v.geo, v.St(), d, name) && NoNul(name) && |name| < NAME
    requires BlocksOf(v.nodes[d].size + RECORD, v.geo.blockBytes) <= v.nodes[d].blockCount
    modifies v`disk, v`blockMap, v`bits, v`nodes, v`owner, v`loose
    ensures FsOk(v) && v.nodes.Keys == old(v.nodes.Keys)
    ensures v.nodes[d].kind == Directory && v.nodes[d].size == old(v.nodes[d].size) + RECORD
    ensures Listing(v.geo, v.St(), d) == Listing(v.geo, old(v.St()), d)[name := ino]
    ensures forall i :: i in v.nodes && i != d ==> SameFile(v.geo, old(v.St()), v.St(), i)
  {
    var _ := DirAdd(v, d, name, ino);
    AddedListing(v.geo, old(v.St()), v.St(), d, name, ino);
  }

  lemma RoomForDots(v: Volume, d: nat)
    requires FsOk(v) && d in v.nodes && v.nodes[d].blockCount > 0 && v.nodes[d].size <= RECORD
    ensures BlocksOf(v.nodes[d].size + RECORD, v.geo.blockBytes) <= v.nodes[d].blockCount
  {
  }

  /** The `.` and `..` entries of a new directory. */
  method AddDots(v: Volume, ino: u32, parent: u32)
    requires FsOk(v) && ino in v.nodes && v.nodes[ino].kind == Directory
    requires Content(v.geo, v.St(), ino) == [] && v.nodes[ino].blockCount > 0
    modifies v`disk, v`blockMap, v`bits, v`nodes, v`owner, v`loose
    ensures FsOk(v) && v.nodes.Keys == old(v.nodes.Keys) && v.nodes[ino].kind == Directory
    ensures Listing(v.geo, v.St(), ino) == map[DOT := ino, DOTDOT := parent]
    ensures forall i :: i in v.nodes && i != ino ==> SameFile(v.geo, old(v.St()), v.St(), i)
  {
    ghost var s := v.St();
    RoomForDots(v, ino);
    DirAddFits(v, ino, DOT, ino);
    ghost var s1 := v.St();
    RoomForDots(v, ino);
    DirAddFits(v, ino, DOTDOT, parent);
    forall i | i in v.nodes && i != ino ensures SameFile(v.geo, s, v.St(), i) {
      assert SameFile(v.geo, s, s1, i) && SameFile(v.geo, s1, v.St(), i);
    }
  }

  /** myfs_create_file: an empty regular file, or no change. */
  method CreateFile(v: Volume, d: nat, name: Name) returns (r: int, ino: nat)
    requires FsOk(v) && d in v.nodes && NoNul(name) && |name| < NAME
    modifies v
    ensures FsOk(v) && r in {0, -1, -EEXIST}
    ensures r == 0 ==>
      Created(v.geo, old(v.St()), v.St(), d, name, ino, Regular, map[]) && Content(v.geo, v.St(), ino) == []
    ensures r != 0 ==> AllSame(v.geo, old(v.St()), v.St())
    ensures r == -EEXIST <==> name in Listing(v.geo, old(v.St()), d)
    ensures r == 0 <==>
      name !in Listing(v.geo, old(v.St()), d)
        && CreateFits(v.geo, old(v.St()), old(FreeBlocks(v)), old(|v.inodeBits|), d)
    ensures r == 0 ==> forall i: nat :: i < ino ==> i in old(v.nodes)
  {
    r, ino := CreateEntry(v, d, name, Regular);
  }

  lemma CreatedDir(g: Geometry, s: Store, s1: Store, s': Store, d: nat, name: Name, ino: nat, listing: map<Name, u32>)
    requires g.Ok() && Created(g, s, s1, d, name, ino, Directory, map[])
    requires s'.nodes.Keys == s1.nodes.Keys && s'.nodes[ino].kind == Directory && Listing(g, s', ino) == listing
    requires forall i :: i in s1.nodes && i != ino ==> SameFile(g, s1, s', i)
    ensures Created(g, s, s', d, name, ino, Directory, listing)
  {
    SameListings(g, s1, s', d);
    forall i | i in s.nodes && i != d ensures SameFile(g, s, s', i) {
      assert SameFile(g, s, s1, i) && SameFile(g, s1, s', i);
    }
  }

  /** myfs_create_dir: a directory that lists exactly itself and its parent, or no change. The
      two writes whose results the source ignores cannot fail. */
  method CreateDir(v: Volume, d: u32, name: Name) returns (r: int, ino: nat)
    requires FsOk(v) && d in v.nodes && NoNul(name) && |name| < NAME
    modifies v
    ensures FsOk(v) && r in {0, -1, -EEXIST}
    ensures r == 0 ==>
      ino < U32 && Created(v.geo, old(v.St()), v.St(), d, name, ino, Directory, map[DOT := ino, DOTDOT := d])
    ensures r != 0 ==> AllSame(v.geo, old(v.St()), v.St())
    ensures r == -EEXIST <==> name in Listing(v.geo, old(v.St()), d)
    ensures r == 0 <==>
      name !in Listing(v.geo, old(v.St()), d)
        && CreateFits(v.geo, old(v.St()), old(FreeBlocks(v)), old(|v.inodeBits|), d)
    ensures r == 0 ==> forall i: nat :: i < ino ==> i in old(v.nodes)
  {
    ghost var s := v.St();
    r, ino := CreateEntry(v, d, name, Directory);
    if r != 0 { return; }
    ghost var s1 := v.St();
    AddDots(v, ino, d);
    CreatedDir(v.geo, s, s1, v.St(), d, name, ino, map[DOT := ino, DOTDOT := d]);
  }
}
