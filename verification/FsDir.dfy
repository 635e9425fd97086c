/** Directories: lookup, adding and removing entries, and the operations built on them. */
module FsDir {
  import opened Common
  import opened Bytes
  import opened FsNames
  import opened FsRecords
  import opened FsLayout
  import opened FsSpace
  import opened FsVolume
  import opened FsFile
  import opened FsInode

  ghost predicate DirOk(c: seq<byte>) {
    |c| % RECORD == 0 && Unique(Decoded(Records(c)))
  }

  /** Every directory holds whole records with distinct names. */
  ghost predicate DirsOk(g: Geometry, s: Store)
    requires g.Ok()
  {
    forall d :: d in s.nodes && s.nodes[d].kind == Directory ==> DirOk(Content(g, s, d))
  }

  ghost predicate FsOk(v: Volume)
    reads v
  {
    Mounted(v) && DirsOk(v.geo, v.St())
  }

  function EntriesIn(c: seq<byte>): seq<Entry> {
    Decoded(Records(c))
  }

  /** Inode `d` as a finite map; only directories have entries. */
  function Listing(g: Geometry, s: Store, d: nat): map<Name, u32>
    requires g.Ok()
  {
    if d in s.nodes && s.nodes[d].kind == Directory then Dir(EntriesIn(Content(g, s, d))) else map[]
  }

  /** myfs_entry_idx_find. */
  method EntryIdxFind(rs: seq<Rec>, name: Name) returns (idx: int)
    ensures idx == Find(Decoded(rs), name)
  {
    var i := 0;
    while i < |rs|
      invariant 0 <= i <= |rs|
      invariant forall k :: 0 <= k < i ==> Decoded(rs)[k].name != name
    {
      if NameOf(rs[i]) == name {
        FindIs(Decoded(rs), name, i);
        return i;
      }
      i := i + 1;
    }
    FindIs(Decoded(rs), name, -1);
    return -1;
  }

  /** Reads a directory file whole. */
  method ReadRecords(v: Volume, d: nat) returns (rs: seq<Rec>)
    requires Mounted(v) && d in v.nodes
    ensures rs == Records(Content(v.geo, v.St(), d))
  {
    var buf := NodeRead(v, d, 0, v.nodes[d].size);
    assert buf == Content(v.geo, v.St(), d);
    rs := Records(buf);
  }

  /** myfs_lookup: the entry's inode number, or -1. */
  method Lookup(v: Volume, d: nat, name: Name) returns (ino: int)
    requires Mounted(v) && d in v.nodes
    ensures var m := Listing(v.geo, v.St(), d); ino == if name in m then m[name] else -1
  {
    if v.nodes[d].kind != Directory { return -1; }
    if v.nodes[d].size == 0 { return -1; }
    var rs := ReadRecords(v, d);
    var idx := EntryIdxFind(rs, name);
    FindIsLookup(Decoded(rs), name);
    if idx == -1 { return -1; }
    return InoOf(rs[idx]);
  }

  /** `data` was appended to file `d`; everything else is as before. */
  ghost predicate Appended(g: Geometry, s: Store, s': Store, d: nat, data: seq<byte>)
    requires g.Ok()
  {
    && d in s.nodes && s'.nodes.Keys == s.nodes.Keys
    && s'.nodes[d].kind == s.nodes[d].kind
    && Content(g, s', d) == Content(g, s, d) + data
    && forall i :: i in s.nodes && i != d ==> SameFile(g, s, s', i)
  }

  /** Entry `name` can be appended to `d` as far as names go. */
  ghost predicate Addable(g: Geometry, s: Store, d: nat, name: Name)
    requires g.Ok()
  {
    d in s.nodes && s.nodes[d].kind == Directory && name !in Listing(g, s, d)
  }

  /** `free` blocks are enough for `d` to hold `n` bytes more. */
  ghost predicate RoomAfter(g: Geometry, s: Store, free: nat, d: nat, n: nat)
    requires g.Ok() && d in s.nodes
  {
    RoomFor(g, s, free, d, BlocksOf(s.nodes[d].size + n, g.blockBytes))
  }

  ghost predicate AllSame(g: Geometry, s: Store, s': Store)
    requires g.Ok()
  {
    s'.nodes.Keys == s.nodes.Keys && forall i :: i in s.nodes ==> SameFile(g, s, s', i)
  }

  /** myfs_dir_add_entry, for a name of any length: on success exactly one record is appended,
      on failure no file changes. It succeeds exactly if this is a directory without the name and
      there is room for the record. */
  method DirAdd(v: Volume, d: nat, name: Name, ino: u32) returns (r: int)
    requires Mounted(v) && d in v.nodes
    modifies v`disk, v`blockMap, v`bits, v`nodes, v`owner, v`loose
    ensures Mounted(v)
    ensures r == -1 || r == RECORD
    ensures r == -1 ==> AllSame(v.geo, old(v.St()), v.St())
    ensures r != -1 ==> Addable(v.geo, old(v.St()), d, name)
    ensures r != -1 ==> Appended(v.geo, old(v.St()), v.St(), d, MakeRec(name, ino))
    ensures forall i :: i in v.nodes && i != d ==> v.nodes[i] == old(v.nodes[i])
    ensures r == RECORD <==>
      Addable(v.geo, old(v.St()), d, name) && RoomAfter(v.geo, old(v.St()), old(FreeBlocks(v)), d, RECORD)
  {
    if v.nodes[d].kind != Directory { return -1; }
    var existing := Lookup(v, d, name);
    if existing != -1 { return -1; }
    r := AppendBytes(v, d, MakeRec(name, ino));
  }

  /** A write at the end of the file. */
  method AppendBytes(v: Volume, d: nat, data: seq<byte>) returns (r: int)
    requires Mounted(v) && d in v.nodes && |data| <= U32 / 2 && data != []
    modifies v`disk, v`blockMap, v`bits, v`nodes, v`owner, v`loose
    ensures Mounted(v)
    ensures r == -1 || r == |data|
    ensures r == -1 ==> AllSame(v.geo, old(v.St()), v.St())
    ensures r != -1 ==> Appended(v.geo, old(v.St()), v.St(), d, data)
    ensures forall i :: i in v.nodes && i != d ==> v.nodes[i] == old(v.nodes[i])
    ensures r == -1 <==> !RoomAfter(v.geo, old(v.St()), old(FreeBlocks(v)), d, |data|)
  {
    hide AllDense, Content, PathOf, Linked, Bitmapped, RoomFor, Enlarged, Free;
    ghost var c := Content(v.geo, v.St(), d);
    assert Overlay(c, |c|, data) == c + data;
    SizeBound(v.geo, v.St(), d);
    r := NodeWrite(v, d, v.nodes[d].size, data);
    if r != -1 { OverlaidIs(c, |c|, data, Content(v.geo, v.St(), d)); }
  }

  /** Appending a record for a name of at most 31 characters that is not there yet adds exactly
      that name to the directory. */
  lemma AddedListing(g: Geometry, s: Store, s': Store, d: nat, name: Name, ino: u32)
    requires g.Ok() && DirsOk(g, s) && Addable(g, s, d, name) && Appended(g, s, s', d, MakeRec(name, ino))
    requires NoNul(name) && |name| < NAME
    ensures DirsOk(g, s')
    ensures Listing(g, s', d) == Listing(g, s, d)[name := ino]
  {
    var c, rec := Content(g, s, d), MakeRec(name, ino);
    MadeRec(name, ino);
    AppendRecord(c, rec);
    AppendDir(EntriesIn(c), Entry(name, ino));
    AppendUnique(EntriesIn(c), Entry(name, ino));
    FindIsLookup(EntriesIn(c), name);
  }

  lemma SameListings(g: Geometry, s: Store, s': Store, i: nat)
    requires g.Ok() && SameFile(g, s, s', i)
    ensures Listing(g, s', i) == Listing(g, s, i)
  {
  }

  /** The compaction loop of myfs_dir_rm_entry. */
  method RemoveAt(a: array<Rec>, idx: nat)
    requires idx < a.Length
    modifies a
    ensures a[..a.Length - 1] == old(a[..idx] + a[idx + 1..])
  {
    var i := idx;
    while i < a.Length - 1
      invariant idx <= i <= a.Length - 1
      invariant forall k :: 0 <= k < idx ==> a[k] == old(a[k])
      invariant forall k :: idx <= k < i ==> a[k] == old(a[k + 1])
      invariant forall k :: i < k < a.Length ==> a[k] == old(a[k])
    {
      a[i] := a[i + 1];
      i := i + 1;
    }
  }

  /** File `d` now holds exactly `data`; everything else is as before. */
  ghost predicate Replaced(g: Geometry, s: Store, s': Store, d: nat, data: seq<byte>)
    requires g.Ok()
  {
    && d in s.nodes && s'.nodes.Keys == s.nodes.Keys
    && s'.nodes[d].kind == s.nodes[d].kind
    && Content(g, s', d) == data
    && forall i :: i in s.nodes && i != d ==> SameFile(g, s, s', i)
  }

  lemma ReplacedTwice(g: Geometry, s: Store, s1: Store, s': Store, d: nat, x: seq<byte>, y: seq<byte>)
    requires g.Ok() && Replaced(g, s, s1, d, x) && Replaced(g, s1, s', d, y)
    ensures Replaced(g, s, s', d, y)
  {
    forall i | i in s.nodes && i != d ensures SameFile(g, s, s', i) {
      assert SameFile(g, s, s1, i) && SameFile(g, s1, s', i);
    }
  }

  /** File `d` was cut to `n` bytes: it keeps the blocks they take and all its tables, the rest is
      free, and no other inode changed. */
  ghost predicate Trimmed(g: Geometry, s: Store, bits: seq<bool>, d: nat, n: nat, s': Store, bits': seq<bool>)
    requires g.Ok()
  {
    && d in s.nodes && d in s'.nodes && s'.nodes[d].size == n && OthersUntouched(s, s', d)
    && s'.nodes[d].blockCount == BlocksOf(n, g.blockBytes) <= s.nodes[d].blockCount
    && Shrunk(g, s, bits, d, s.nodes[d].blockCount - s'.nodes[d].blockCount, s', bits')
  }

  /** Overwriting the start of a file inside its size needs no block, so it cannot fail. */
  method Overwrite(v: Volume, d: nat, data: seq<byte>)
    requires Mounted(v) && d in v.nodes && |data| < v.nodes[d].size
    modifies v`disk, v`blockMap, v`bits, v`nodes, v`owner, v`loose
    ensures Mounted(v)
    ensures Replaced(v.geo, old(v.St()), v.St(), d, Overlay(Content(v.geo, old(v.St()), d), 0, data))
    ensures v.nodes[d].blockCount == old(v.nodes[d].blockCount) && forall i :: i in v.nodes && i != d ==>
      v.nodes[i] == old(v.nodes[i])
    ensures Shrunk(v.geo, old(v.St()), old(v.bits), d, 0, v.St(), v.bits)
  {
    hide AllDense, Content, PathOf, Linked, Bitmapped, RoomFor, Enlarged, Free, Shrunk;
    ghost var s := v.St();
    Inside(v.geo, s, FreeBlocks(v), v.bits, d, |data|);
    EnoughBlocks(v.geo, s, d, |data|);
    SizeBound(v.geo, s, d);
    var w := NodeWrite(v, d, 0, data);
    assert w == |data|;
    OverlaidIs(Content(v.geo, s, d), 0, data, Content(v.geo, v.St(), d));
    if data != [] {
      NotEnlarged(v.geo, s, old(v.bits), d, BlocksOf(|data|, v.geo.blockBytes), v.St(), v.bits);
    } else {
      SelfSame(v.geo, s);
      ShrunkNone(v.geo, s, v.bits, d);
    }
  }

  lemma SelfSame(g: Geometry, s: Store)
    requires g.Ok()
    ensures forall i :: i in s.nodes ==> SameFile(g, s, s, i)
  {
  }

  lemma EnoughBlocks(g: Geometry, s: Store, d: nat, n: nat)
    requires g.Ok() && AllDense(g, s) && d in s.nodes && n <= s.nodes[d].size
    ensures BlocksOf(n, g.blockBytes) <= BlocksOf(s.nodes[d].size, g.blockBytes) <= s.nodes[d].blockCount
  {
    DenseAt(g, s, d);
    BlocksOfMono(n, s.nodes[d].size, g.blockBytes);
  }

  lemma NotEnlarged(g: Geometry, s: Store, bits: seq<bool>, d: nat, n: nat, s': Store, bits': seq<bool>)
    requires g.Ok() && Enlarged(g, s, bits, d, n, s', bits') && n <= s.nodes[d].blockCount
    ensures s'.nodes[d].blockCount == s.nodes[d].blockCount && Shrunk(g, s, bits, d, 0, s', bits')
  {
  }

  /** Cutting a file at `n` bytes. */
  method CutAt(v: Volume, d: nat, n: u32)
    requires Mounted(v) && d in v.nodes && n < v.nodes[d].size
    modifies v`disk, v`blockMap, v`bits, v`nodes, v`owner, v`loose
    ensures Mounted(v)
    ensures Replaced(v.geo, old(v.St()), v.St(), d, Content(v.geo, old(v.St()), d)[..n])
    ensures v.nodes[d].size == n && v.nodes[d].blockCount == BlocksOf(n, v.geo.blockBytes) <= old(v.nodes[d].blockCount)
    ensures forall i :: i in v.nodes && i != d ==> v.nodes[i] == old(v.nodes[i])
    ensures Shrunk(v.geo, old(v.St()), old(v.bits), d, old(v.nodes[d].blockCount) - v.nodes[d].blockCount, v.St(),
      v.bits)
  {
    hide AllDense, Content, PathOf, Linked, Bitmapped, Shrunk, BitsCut;
    EnoughBlocks(v.geo, v.St(), d, n);
    Truncate(v, d, n);
  }

  /** Rewriting a file with fewer bytes and cutting it there cannot fail. */
  method Rewrite(v: Volume, d: nat, data: seq<byte>)
    requires Mounted(v) && d in v.nodes && |data| < v.nodes[d].size
    modifies v`disk, v`blockMap, v`bits, v`nodes, v`owner, v`loose
    ensures Mounted(v) && Replaced(v.geo, old(v.St()), v.St(), d, data)
    ensures Trimmed(v.geo, old(v.St()), old(v.bits), d, |data|, v.St(), v.bits)
  {
    hide AllDense, Linked, Bitmapped, Content, Shrunk;
    ghost var s := v.St();
    Overwrite(v, d, data);
    ghost var s1, bits1 := v.St(), v.bits;
    assert Content(v.geo, s1, d)[..|data|] == data;
    CutAt(v, d, |data|);
    ReplacedTwice(v.geo, s, s1, v.St(), d, Content(v.geo, s1, d), data);
    ShrunkTrans(v.geo, s, old(v.bits), d, 0, s1, bits1, s.nodes[d].blockCount - v.nodes[d].blockCount, v.St(), v.bits);
    ShrunkOthers(v.geo, s, old(v.bits), d, s.nodes[d].blockCount - v.nodes[d].blockCount, v.St(), v.bits);
  }

  lemma ShrunkOthers(g: Geometry, s: Store, bits: seq<bool>, d: nat, n: nat, s': Store, bits': seq<bool>)
    requires Shrunk(g, s, bits, d, n, s', bits') && forall i :: i in s.nodes && i in s'.nodes && i != d ==>
      s'.nodes[i] == s.nodes[i]
    ensures OthersUntouched(s, s', d)
  {
    GainedOthers(s, s', d, {});
  }

  /** What was cut off can be put back: its blocks are free and its tables are still there. */
  lemma RoomBack(g: Geometry, s: Store, bits: seq<bool>, d: nat, n: nat, s': Store, bits': seq<bool>, target: nat)
    requires g.Ok() && AllDense(g, s) && Trimmed(g, s, bits, d, n, s', bits') && target <= s.nodes[d].blockCount
    ensures RoomFor(g, s', |Free(g, bits')|, d, target)
  {
    hide PathOf, Free;
    DenseAt(g, s, d);
    var have := s'.nodes[d].blockCount;
    if target > have {
      forall j: nat | have <= j < target
        ensures Ptr(s, d, Leaf(PathOf(g.Ptrs(), j))) != 0 { assert Lba(g, s, d, j) != 0; }
      NoneMissing(g, s, s', d, have, target);
      assert Lba(g, s, d, target - 1) != 0;
    }
  }

  ghost predicate EntriesAfter(es: seq<Entry>, name: Name, es': seq<Entry>) {
    var i := Find(es, name);
    i >= 0 && es' == Without(es, i)
  }

  /** Directory `d` lost `name` (if it had it), kept the order of its other entries, and
      nothing else changed. */
  ghost predicate Delisted(g: Geometry, s: Store, s': Store, d: nat, name: Name)
    requires g.Ok()
  {
    && s'.nodes.Keys == s.nodes.Keys
    && (d in s.nodes ==> s'.nodes[d].kind == s.nodes[d].kind && s'.nodes[d].size <= s.nodes[d].size)
    && Listing(g, s', d) == Listing(g, s, d) - {name}
    && (name in Listing(g, s, d) ==>
          EntriesAfter(EntriesIn(Content(g, s, d)), name, EntriesIn(Content(g, s', d))))
    && (forall i :: i in s.nodes && (i != d || name !in Listing(g, s, d)) ==> SameFile(g, s, s', i))
  }

  lemma ReplacedDirs(g: Geometry, s: Store, s': Store, d: nat, data: seq<byte>)
    requires g.Ok() && DirsOk(g, s) && Replaced(g, s, s', d, data) && DirOk(data)
    ensures DirsOk(g, s')
  {
  }

  lemma NotListed(g: Geometry, s: Store, d: nat, name: Name)
    requires g.Ok() && name !in Listing(g, s, d)
    ensures Delisted(g, s, s, d, name)
  {
  }

  /** Removing the record of a name. */
  lemma RemovedListing(g: Geometry, s: Store, s': Store, d: nat, name: Name, rs: seq<Rec>, i: nat)
    requires g.Ok() && DirsOk(g, s) && d in s.nodes && s.nodes[d].kind == Directory
    requires rs == Records(Content(g, s, d)) && i < |rs| && i == Find(Decoded(rs), name)
    requires Replaced(g, s, s', d, Flatten(Without(rs, i)))
    ensures DirsOk(g, s') && Delisted(g, s, s', d, name)
  {
    FindIsLookup(Decoded(rs), name);
    FlattenRecords(Content(g, s, d));
    RemoveRecord(rs, i);
    ReplacedDirs(g, s, s', d, Flatten(Without(rs, i)));
    var m, m' := Listing(g, s, d), Listing(g, s', d);
    assert m == Dir(Decoded(rs)) && m' == m - {name};
  }

  /** The part of myfs_dir_rm_entry after the entry was found. */
  method RemoveFound(v: Volume, d: nat, rs: seq<Rec>, idx: nat)
    requires Mounted(v) && d in v.nodes
    requires |Content(v.geo, v.St(), d)| % RECORD == 0 && rs == Records(Content(v.geo, v.St(), d)) && idx < |rs|
    modifies v`disk, v`blockMap, v`bits, v`nodes, v`owner, v`loose
    ensures Mounted(v) && Replaced(v.geo, old(v.St()), v.St(), d, Flatten(Without(rs, idx)))
    ensures old(v.nodes[d].size) >= RECORD
    ensures Trimmed(v.geo, old(v.St()), old(v.bits), d, old(v.nodes[d].size) - RECORD, v.St(), v.bits)
  {
    hide AllDense, Linked, Bitmapped, Content, Trimmed;
    FlattenRecords(Content(v.geo, v.St(), d));
    var buf := new Rec[|rs|](i requires 0 <= i < |rs| => rs[i]);
    assert buf[..] == rs;
    RemoveAt(buf, idx);
    var rest := buf[..|rs| - 1];
    assert rest == Without(rs, idx);
    Rewrite(v, d, Flatten(rest));
  }

  /** myfs_dir_rm_entry: 0 on success, -1 if the name is not there. */
  method DirRm(v: Volume, d: nat, name: Name) returns (r: int)
    requires FsOk(v) && d in v.nodes
    modifies v`disk, v`blockMap, v`bits, v`nodes, v`owner, v`loose
    ensures FsOk(v)
    ensures r == if name in Listing(v.geo, old(v.St()), d) then 0 else -1
    ensures Delisted(v.geo, old(v.St()), v.St(), d, name)
    ensures r == -1 ==> v.St() == old(v.St()) && v.bits == old(v.bits)
    ensures r == 0 ==>
      old(v.nodes[d].size) >= RECORD
        && Trimmed(v.geo, old(v.St()), old(v.bits), d, old(v.nodes[d].size) - RECORD, v.St(), v.bits)
  {
    hide AllDense, Linked, Bitmapped, Content, Trimmed;
    ghost var s := v.St();
    if v.nodes[d].kind != Directory || v.nodes[d].size == 0 {
      NotListed(v.geo, s, d, name);
      return -1;
    }
    var rs := ReadRecords(v, d);
    var idx := EntryIdxFind(rs, name);
    FindIsLookup(Decoded(rs), name);
    if idx == -1 {
      NotListed(v.geo, s, d, name);
      return -1;
    }
    RemoveFound(v, d, rs, idx);
    RemovedListing(v.geo, s, v.St(), d, name, rs, idx);
    return 0;
  }
}
