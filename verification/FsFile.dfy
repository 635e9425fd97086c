/** Files: byte contents of inodes, and growing, reading, writing, truncating and freeing them. */
module FsFile {
  import opened Common
  import opened Bytes
  import opened FsLayout
  import opened FsGraph
  import opened FsSpace
  import opened FsVolume

  /** The inode has data blocks 0 .. blockCount-1 and no other, and they cover its size. */
  ghost predicate Dense(g: Geometry, s: Store, ino: nat)
    requires g.Ok() && ino in s.nodes
  {
    var nd := s.nodes[ino];
    && BlocksOf(nd.size, g.blockBytes) <= nd.blockCount
    && forall i: nat :: Lba(g, s, ino, i) != 0 <==> i < nd.blockCount
  }

  ghost predicate AllDense(g: Geometry, s: Store)
    requires g.Ok()
  {
    forall ino :: ino in s.nodes ==> Dense(g, s, ino)
  }

  const LARGEST := 262666 * 2048

  /** Ten direct blocks, 512 behind one table and 512 * 512 behind two: no file comes near 4 GiB. */
  lemma SizeBound(g: Geometry, s: Store, ino: nat)
    requires g.Ok() && AllDense(g, s) && ino in s.nodes
    ensures s.nodes[ino].size <= LARGEST
  {
    assert Dense(g, s, ino);
    var n, size, bb := s.nodes[ino].blockCount, s.nodes[ino].size, g.blockBytes;
    if size > 0 {
      assert Lba(g, s, ino, n - 1) != 0;
      PathIs(g.Ptrs(), n - 1);
      Squares(g.Ptrs());
      SplitIs(size - 1, bb);
      BlockBound(size, n, bb);
    }
  }

  lemma Squares(p: nat)
    requires p <= 512
    ensures p * p <= 262144
  {
  }

  lemma BlockBound(size: nat, n: nat, bb: nat)
    requires 0 < bb <= 2048 && 0 < size && (size - 1) / bb + 1 <= n <= 262666
    ensures size <= LARGEST
  {
    var q := (size - 1) / bb;
    assert size - 1 == q * bb + (size - 1) % bb;
    MulLess(q, n, bb);
    assert size <= n * bb <= 262666 * 2048;
  }

  /** What holds between any two operations on a volume. */
  ghost predicate Valid(v: Volume)
    reads v
  {
    v.Sound() && v.loose == {} && AllDense(v.geo, v.St())
  }

  /** Byte `k` of an inode's data; a missing block reads as zeros. */
  function ByteAt(g: Geometry, s: Store, ino: nat, k: nat): byte
    requires g.Ok()
  {
    var (i, off) := Split(k, g.blockBytes);
    var lba := Lba(g, s, ino, i);
    if 0 < lba < |s.disk| && off < |s.disk[lba]| then s.disk[lba][off] else 0
  }

  /** The bytes of a file, as its users see them. */
  function Content(g: Geometry, s: Store, ino: nat): (r: seq<byte>)
    requires g.Ok() && ino in s.nodes
    ensures |r| == s.nodes[ino].size
  {
    seq(s.nodes[ino].size, k requires 0 <= k => ByteAt(g, s, ino, k))
  }

  /** No allocated block of any inode moved or changed; only `ino` may have grown. */
  ghost predicate Keeps(g: Geometry, s: Store, s': Store, ino: nat)
    requires g.Ok()
  {
    && |s'.disk| == |s.disk|
    && s'.nodes.Keys == s.nodes.Keys && ino in s.nodes
    && (forall i :: i in s.nodes && i != ino ==> s'.nodes[i] == s.nodes[i])
    && s'.nodes[ino].kind == s.nodes[ino].kind
    && s'.nodes[ino].size == s.nodes[ino].size
    && s'.nodes[ino].blockCount >= s.nodes[ino].blockCount
    && forall i: nat, j: nat :: var b := Lba(g, s, i, j); 0 < b < |s.disk| ==>
      Lba(g, s', i, j) == b && s'.disk[b] == s.disk[b]
  }

  lemma KeepsTrans(g: Geometry, s: Store, s': Store, s'': Store, ino: nat)
    requires g.Ok() && Keeps(g, s, s', ino) && Keeps(g, s', s'', ino)
    ensures Keeps(g, s, s'', ino)
  {
  }

  lemma KeepsBytes(g: Geometry, s: Store, s': Store, ino: nat, i: nat, k: nat)
    requires g.Ok() && Keeps(g, s, s', ino) && i in s.nodes && Dense(g, s, i)
    requires Lba(g, s, i, Split(k, g.blockBytes).0) < |s.disk|
    requires Split(k, g.blockBytes).0 < s.nodes[i].blockCount
    ensures ByteAt(g, s', i, k) == ByteAt(g, s, i, k)
  {
  }

  lemma KeepsContent(g: Geometry, s: Store, owner: Owners, s': Store, ino: nat, i: nat)
    requires g.Ok() && Keeps(g, s, s', ino) && i in s.nodes && Dense(g, s, i) && Linked(s, owner)
    ensures Content(g, s', i) == Content(g, s, i)
  {
    forall k | 0 <= k < s.nodes[i].size ensures ByteAt(g, s', i, k) == ByteAt(g, s, i, k) {
      SplitMono(k, s.nodes[i].size - 1, g.blockBytes);
      KeepsBytes(g, s, s', ino, i, k);
    }
  }

  /** Block `idx` was added to an inode that had exactly blocks 0 .. idx-1. */
  lemma BlockAppended(g: Geometry, s: Store, owner: Owners, ino: nat, idx: nat, phys: u32, s1: Store, s': Store)
    requires g.Ok() && Linked(s, owner) && AllDense(g, s) && phys != 0
    requires Remapped(g, s, owner, {phys}, ino, idx, phys, s1) && idx == s.nodes[ino].blockCount
    requires s'.disk == s1.disk && s'.nodes == s1.nodes[ino := s1.nodes[ino].(blockCount := idx + 1)]
    requires forall i: nat, l: Loc :: Ptr(s', i, l) == Ptr(s1, i, l)
    ensures Keeps(g, s, s', ino) && AllDense(g, s')
  {
    assert Lba(g, s, ino, idx) == 0;
    forall i | i in s'.nodes ensures Dense(g, s', i) {
      assert Dense(g, s, i);
      assert forall j: nat :: Lba(g, s', i, j) == Lba(g, s1, i, j);
    }
  }

  /** Tables were added but no data pointer changed. */
  lemma NotAppended(g: Geometry, s: Store, owner: Owners, loose: set<nat>, ino: nat, s': Store, owner': Owners)
    requires g.Ok() && Linked(s, owner) && AllDense(g, s) && TablesGrew(s, owner, loose, ino, s', owner')
    ensures Keeps(g, s, s', ino) && AllDense(g, s')
  {
    forall i | i in s'.nodes ensures Dense(g, s', i) {
      assert Dense(g, s, i);
      assert forall j: nat :: Lba(g, s', i, j) == Lba(g, s, i, j);
    }
  }

  /** The free blocks of a volume. */
  ghost function FreeBlocks(v: Volume): nat
    reads v
  {
    |Free(v.geo, v.bits)|
  }

  /** One round of myfs_blocks_alloc. It fails exactly past the largest file size or without a free
      block for the data and one for each table lacking. */
  method BlockAppend(v: Volume, ino: nat) returns (ok: bool)
    requires Valid(v) && ino in v.nodes
    modifies v`disk, v`blockMap, v`bits, v`nodes, v`owner, v`loose
    ensures Valid(v) && Keeps(v.geo, old(v.St()), v.St(), ino)
    ensures v.nodes[ino].blockCount == old(v.nodes[ino].blockCount) + if ok then 1 else 0
    ensures var p := PathOf(v.geo.Ptrs(), old(v.nodes[ino].blockCount)); var lack := Lacks(old(v.St()), ino, p);
      && (ok <==> !p.Beyond? && old(FreeBlocks(v)) >= 1 + |lack|)
      && (ok ==> Gained(old(v.St()), v.St(), ino, lack) && FreeBlocks(v) + 1 + |lack| == old(FreeBlocks(v)))
    ensures !ok && old(v.nodes[ino].blockCount) < DIRECT ==>
              v.bits == old(v.bits) && v.disk == old(v.disk) && v.nodes == old(v.nodes) && v.owner == old(v.owner)
  {
    hide Linked, Bitmapped, AllDense, Keeps;
    LacksIs(v.St(), ino, PathOf(v.geo.Ptrs(), v.nodes[ino].blockCount));
    var phys := v.BitmapAlloc();
    if phys == 0 {
      KeepsRefl(v.geo, v.St(), ino);
      return false;
    }
    ok := AppendTaken(v, ino, phys);
  }

  lemma KeepsRefl(g: Geometry, s: Store, ino: nat)
    requires g.Ok() && ino in s.nodes
    ensures Keeps(g, s, s, ino)
  {
  }

  /** Links the block just taken from the bitmap, or gives it back. */
  method AppendTaken(v: Volume, ino: nat, phys: nat) returns (ok: bool)
    requires v.Sound() && AllDense(v.geo, v.St()) && ino in v.nodes
    requires v.loose == {phys} && phys !in v.owner
    modifies v`disk, v`blockMap, v`bits, v`nodes, v`owner, v`loose
    ensures Valid(v) && Keeps(v.geo, old(v.St()), v.St(), ino)
    ensures v.nodes[ino].blockCount == old(v.nodes[ino].blockCount) + if ok then 1 else 0
    ensures var p := PathOf(v.geo.Ptrs(), old(v.nodes[ino].blockCount)); var lack := Lacks(old(v.St()), ino, p);
      && (ok <==> !p.Beyond? && old(FreeBlocks(v)) >= |lack|)
      && (ok ==> Gained(old(v.St()), v.St(), ino, lack) && FreeBlocks(v) + |lack| == old(FreeBlocks(v)))
  {
    hide Linked, Bitmapped, AllDense, Keeps, Remapped, TablesGrew, Gained;
    var idx := v.nodes[ino].blockCount;
    ghost var s, owner := v.St(), v.owner;
    NoBlockYet(v.geo, s, ino);
    InArea(v.geo, v.bits, v.owner, v.loose, phys);
    ok := v.MapBlock(ino, idx, phys);
    if !ok {
      NotAppended(v.geo, s, owner, {phys}, ino, v.St(), v.owner);
      InArea(v.geo, v.bits, v.owner, v.loose, phys);
      v.ClearBit(phys);
      return;
    }
    ghost var s1 := v.St();
    SameNodes(v.geo, s, owner, {phys}, ino, idx, phys, s1);
    v.Record(ino, idx + 1, v.nodes[ino].size);
    BlockAppended(v.geo, s, owner, ino, idx, phys, s1, v.St());
    GainedSame(s, s1, v.St(), ino, Lacks(s, ino, PathOf(v.geo.Ptrs(), idx)));
  }

  lemma NoBlockYet(g: Geometry, s: Store, ino: nat)
    requires g.Ok() && AllDense(g, s) && ino in s.nodes
    ensures Lba(g, s, ino, s.nodes[ino].blockCount) == 0
  {
    assert Dense(g, s, ino);
  }

  lemma InArea(g: Geometry, bits: seq<bool>, owner: Owners, loose: set<nat>, b: nat)
    requires g.totalBlocks <= |bits| && Bitmapped(g, bits, owner, loose) && b in loose && b !in owner
    ensures g.dataStart <= b < g.totalBlocks && bits[b]
  {
  }

  lemma SameNodes(g: Geometry, s: Store, owner: Owners, loose: set<nat>, ino: nat, idx: nat, phys: u32, s': Store)
    requires g.Ok() && Remapped(g, s, owner, loose, ino, idx, phys, s')
    ensures ino in s'.nodes && s'.nodes[ino].blockCount == s.nodes[ino].blockCount
    ensures s'.nodes[ino].size == s.nodes[ino].size
  {
  }

  lemma GainedSame(s: Store, s1: Store, s2: Store, ino: nat, made: set<Loc>)
    requires Gained(s, s1, ino, made) && forall i: nat, l: Loc :: Ptr(s2, i, l) == Ptr(s1, i, l)
    ensures Gained(s, s2, ino, made)
  {
  }

  /** myfs_blocks_alloc: appends `count` blocks, exactly if there is room; on failure keeps those
      it got. */
  method BlocksAlloc(v: Volume, ino: nat, count: nat) returns (ok: bool)
    requires Valid(v) && ino in v.nodes
    modifies v`disk, v`blockMap, v`bits, v`nodes, v`owner, v`loose
    ensures Valid(v) && Keeps(v.geo, old(v.St()), v.St(), ino)
    ensures ok ==> v.nodes[ino].blockCount == old(v.nodes[ino].blockCount) + count
    ensures !ok ==> v.nodes[ino].blockCount < old(v.nodes[ino].blockCount) + count
    ensures ok <==> RoomFor(v.geo, old(v.St()), old(FreeBlocks(v)), ino, old(v.nodes[ino].blockCount) + count)
    ensures ok ==> Grew(v.geo, old(v.St()), old(v.bits), ino, count, v.St(), v.bits)
  {
    hide Linked, Bitmapped, AllDense, Keeps, Gained, PathOf, Missing, Lacks, Free;
    ghost var s0, lo, free := v.St(), v.nodes[ino].blockCount, FreeBlocks(v);
    KeepsRefl(v.geo, s0, ino);
    GrewNone(v.geo, s0, v.bits, ino);
    var i := 0;
    while i < count
      invariant 0 <= i <= count
      invariant Valid(v) && Keeps(v.geo, s0, v.St(), ino) && ino in v.nodes
      invariant v.nodes[ino].blockCount == lo + i
      invariant Grew(v.geo, s0, old(v.bits), ino, i, v.St(), v.bits)
      invariant i > 0 ==> !PathOf(v.geo.Ptrs(), lo + i - 1).Beyond?
    {
      ghost var s1, bits1 := v.St(), v.bits;
      ok := BlockAppend(v, ino);
      KeepsTrans(v.geo, s0, s1, v.St(), ino);
      KeepsNode(v.geo, s0, v.St(), ino);
      MissingNext(v.geo, s0, s1, ino, lo, lo + i);
      if !ok {
        NoRoom(v.geo, s0, free, ino, i, count);
        return;
      }
      GainedTrans(s0, s1, v.St(), ino, Missing(v.geo, s0, ino, lo, lo + i),
        Lacks(s1, ino, PathOf(v.geo.Ptrs(), lo + i)));
      i := i + 1;
    }
    return true;
  }

  /** Exactly the blocks appended and the tables made for them are no longer free. */
  ghost predicate Grew(g: Geometry, s: Store, bits: seq<bool>, ino: nat, count: nat, s': Store, bits': seq<bool>)
    requires g.Ok()
  {
    && ino in s.nodes
    && var lo := s.nodes[ino].blockCount; var made := Missing(g, s, ino, lo, lo + count);
       Gained(s, s', ino, made) && |Free(g, bits')| + count + |made| == |Free(g, bits)|
  }

  lemma GrewNone(g: Geometry, s: Store, bits: seq<bool>, ino: nat)
    requires g.Ok() && ino in s.nodes
    ensures Grew(g, s, bits, ino, 0, s, bits)
  {
    SameTables(s, s, ino);
  }

  lemma KeepsNode(g: Geometry, s: Store, s': Store, ino: nat)
    requires g.Ok() && Keeps(g, s, s', ino)
    ensures ino in s'.nodes
  {
  }

  /** The loop stops only where the whole request does not fit. */
  lemma NoRoom(g: Geometry, s: Store, free: nat, ino: nat, i: nat, count: nat)
    requires g.Ok() && ino in s.nodes && i < count
    requires var lo := s.nodes[ino].blockCount;
      PathOf(g.Ptrs(), lo + i).Beyond? || free < i + 1 + |Missing(g, s, ino, lo, lo + i + 1)|
    ensures !RoomFor(g, s, free, ino, s.nodes[ino].blockCount + count)
  {
    hide PathOf, Missing;
    var lo := s.nodes[ino].blockCount;
    if PathOf(g.Ptrs(), lo + i).Beyond? { BeyondMono(g.Ptrs(), lo + i, lo + count - 1); }
    MissingMono(g, s, ino, lo, lo + i + 1, lo + count);
  }

  /** The `n` bytes of a file from position `o`, when they lie in one block. */
  function Chunk(g: Geometry, s: Store, ino: nat, o: nat, n: nat): (r: seq<byte>)
    requires g.Ok() && Split(o, g.blockBytes).1 + n <= g.blockBytes
    requires forall b :: 0 <= b < |s.disk| ==> |s.disk[b]| == g.blockBytes
    ensures |r| == n
  {
    var (q, off) := Split(o, g.blockBytes);
    var lba := Lba(g, s, ino, q);
    if 0 < lba < |s.disk| then s.disk[lba][off..off + n] else Zeros(n)
  }

  lemma ChunkByte(g: Geometry, s: Store, ino: nat, o: nat, n: nat, t: nat)
    requires g.Ok() && Split(o, g.blockBytes).1 + n <= g.blockBytes && t < n
    requires forall b :: 0 <= b < |s.disk| ==> |s.disk[b]| == g.blockBytes
    ensures Chunk(g, s, ino, o, n)[t] == ByteAt(g, s, ino, o + t)
  {
    SplitWithin(o, t, g.blockBytes);
  }

  lemma ChunkIs(g: Geometry, s: Store, ino: nat, o: nat, n: nat)
    requires g.Ok() && Split(o, g.blockBytes).1 + n <= g.blockBytes
    requires forall b :: 0 <= b < |s.disk| ==> |s.disk[b]| == g.blockBytes
    requires ino in s.nodes && o + n <= s.nodes[ino].size
    ensures Chunk(g, s, ino, o, n) == Content(g, s, ino)[o..o + n]
  {
    var c, w := Chunk(g, s, ino, o, n), Content(g, s, ino)[o..o + n];
    forall t | 0 <= t < n ensures c[t] == w[t] { ChunkByte(g, s, ino, o, n, t); }
  }

  /** What a read asked for `count` bytes at `offset` returns of a file with these bytes. */
  function Slice(content: seq<byte>, offset: nat, count: nat): seq<byte> {
    if offset >= |content| then [] else content[offset..Min(offset + count, |content|)]
  }

  /** How many bytes the code sets out to read: the sum it compares with the size wraps. */
  function ReadLength(size: nat, offset: nat, count: nat): nat {
    if offset >= size then 0 else if (offset + count) % U32 > size then size - offset else count
  }

  /** A read stays inside the file exactly if the sum does not wrap to something within the size. */
  lemma ReadClamped(size: nat, offset: nat, count: nat)
    requires size < U32 && offset < U32 && count < U32
    ensures ReadLength(size, offset, count) == (if offset >= size then 0 else Min(count, size - offset)) <==>
      offset >= size || offset + count < U32 || (offset + count) % U32 > size
  {
    if offset + count >= U32 { assert (offset + count) % U32 == offset + count - U32; }
  }

  /** myfs_node_read, wherever the sum does not wrap into the file. A block that is not allocated
      reads as zeros. */
  method NodeRead(v: Volume, ino: nat, offset: nat, count: nat) returns (buf: seq<byte>)
    requires v.Sound() && ino in v.nodes && offset < U32 && count < U32
    requires offset >= v.nodes[ino].size || offset + count < U32 || (offset + count) % U32 > v.nodes[ino].size
    ensures buf == Slice(Content(v.geo, v.St(), ino), offset, count)
  {
    hide Linked, Bitmapped, ByteAt;
    buf := [];
    if offset >= v.nodes[ino].size { return; }
    ReadClamped(v.nodes[ino].size, offset, count);
    var n := if (offset + count) % U32 > v.nodes[ino].size then v.nodes[ino].size - offset else count;
    ghost var content := Content(v.geo, v.St(), ino);
    while |buf| < n
      invariant |buf| <= n
      invariant buf == content[offset..offset + |buf|]
      decreases n - |buf|
    {
      var chunk := ReadChunk(v, ino, offset + |buf|, n - |buf|);
      buf := buf + chunk;
    }
  }

  /** One round of the read loop: up to the end of the block that holds `o`. */
  method ReadChunk(v: Volume, ino: nat, o: nat, want: nat) returns (chunk: seq<byte>)
    requires v.Sound() && ino in v.nodes && 0 < want && o + want <= v.nodes[ino].size
    ensures 0 < |chunk| <= want
    ensures chunk == Content(v.geo, v.St(), ino)[o..o + |chunk|]
  {
    var bb := v.geo.blockBytes;
    var q, r := Locate(o, bb);
    var n := Min(bb - r, want);
    var lba := v.BlockLba(ino, q);
    ChunkIs(v.geo, v.St(), ino, o, n);
    chunk := if lba == 0 then Zeros(n) else v.disk[lba][r..r + n];
    assert chunk == Chunk(v.geo, v.St(), ino, o, n);
  }

  /** All bytes of all inodes, except that positions `from` .. `to` of `data` were written to
      `ino`, the file position of `data[0]` being `o`. */
  ghost predicate Patched(g: Geometry, s: Store, s': Store, ino: nat, o: nat, data: seq<byte>, from: nat, to: nat)
    requires g.Ok() && to <= |data|
  {
    forall i: nat, k: nat :: ByteAt(g, s', i, k) ==
      if i == ino && o + from <= k < o + to then data[k - o] else ByteAt(g, s, i, k)
  }

  lemma PatchedTrans(g: Geometry, s: Store, s': Store, s'': Store, ino: nat, o: nat, data: seq<byte>, mid: nat, to: nat)
    requires g.Ok() && mid <= to <= |data|
    requires Patched(g, s, s', ino, o, data, 0, mid) && Patched(g, s', s'', ino, o, data, mid, to)
    ensures Patched(g, s, s'', ino, o, data, 0, to)
  {
  }

  /** `s'` is `s` with `d` copied into the block that holds position `p` of `ino`. */
  ghost predicate BlockPatched(g: Geometry, s: Store, ino: nat, p: nat, d: seq<byte>, s': Store)
    requires g.Ok() && forall b :: 0 <= b < |s.disk| ==> |s.disk[b]| == g.blockBytes
  {
    var (q, r) := Split(p, g.blockBytes);
    var lba := Lba(g, s, ino, q);
    && r + |d| <= g.blockBytes && 0 < lba < |s.disk|
    && s' == s.(disk := s.disk[lba := Splice(s.disk[lba], r, d)])
  }

  lemma PatchInside(g: Geometry, s: Store, ino: nat, p: nat, d: seq<byte>, s': Store, k: nat)
    requires g.Ok() && (forall b :: 0 <= b < |s.disk| ==> |s.disk[b]| == g.blockBytes)
    requires BlockPatched(g, s, ino, p, d, s')
    requires var q := Split(p, g.blockBytes).0; Split(k, g.blockBytes).0 == q && Lba(g, s', ino, q) == Lba(g, s, ino, q)
    ensures ByteAt(g, s', ino, k) == if p <= k < p + |d| then d[k - p] else ByteAt(g, s, ino, k)
  {
    SplitMono(Min(p, k), if p < k then k else p, g.blockBytes);
  }

  lemma PatchOutside(g: Geometry, s: Store, owner: Owners, ino: nat, p: nat, d: seq<byte>, s': Store, i: nat, k: nat)
    requires g.Ok() && Linked(s, owner) && (forall b :: 0 <= b < |s.disk| ==> |s.disk[b]| == g.blockBytes)
    requires BlockPatched(g, s, ino, p, d, s')
    requires var q, j := Split(p, g.blockBytes).0, Split(k, g.blockBytes).0;
      && (i != ino || j != q) && Lba(g, s', i, j) == Lba(g, s, i, j)
    ensures ByteAt(g, s', i, k) == ByteAt(g, s, i, k)
  {
    var q, j := Split(p, g.blockBytes).0, Split(k, g.blockBytes).0;
    if Lba(g, s, i, j) == Lba(g, s, ino, q) { PathInjective(g.Ptrs(), j, q); }
  }

  lemma PatchByte(g: Geometry, s: Store, owner: Owners, ino: nat, p: nat, d: seq<byte>, s': Store, i: nat, k: nat)
    requires g.Ok() && Linked(s, owner) && (forall b :: 0 <= b < |s.disk| ==> |s.disk[b]| == g.blockBytes)
    requires BlockPatched(g, s, ino, p, d, s')
    requires Lba(g, s', i, Split(k, g.blockBytes).0) == Lba(g, s, i, Split(k, g.blockBytes).0)
    ensures ByteAt(g, s', i, k) == if i == ino && p <= k < p + |d| then d[k - p] else ByteAt(g, s, i, k)
  {
    if i == ino && Split(k, g.blockBytes).0 == Split(p, g.blockBytes).0 {
      PatchInside(g, s, ino, p, d, s', k);
    } else {
      if p <= k < p + |d| { SplitWithin(p, k - p, g.blockBytes); }
      PatchOutside(g, s, owner, ino, p, d, s', i, k);
    }
  }

  lemma PatchBytes(g: Geometry, s: Store, owner: Owners, ino: nat, p: nat, d: seq<byte>, s': Store)
    requires g.Ok() && Linked(s, owner) && forall b :: 0 <= b < |s.disk| ==> |s.disk[b]| == g.blockBytes
    requires BlockPatched(g, s, ino, p, d, s')
    requires forall i: nat, l: Loc :: Ptr(s', i, l) == Ptr(s, i, l)
    ensures Patched(g, s, s', ino, p, d, 0, |d|)
  {
    forall i: nat, k: nat
      ensures ByteAt(g, s', i, k) == if i == ino && p <= k < p + |d| then d[k - p] else ByteAt(g, s, i, k)
    {
      PatchByte(g, s, owner, ino, p, d, s', i, k);
    }
  }

  lemma PatchedPart(g: Geometry, s: Store, s': Store, ino: nat, o: nat, data: seq<byte>, from: nat, to: nat,
    d: seq<byte>)
    requires g.Ok() && from <= to <= |data| && d == data[from..to] && Patched(g, s, s', ino, o + from, d, 0, |d|)
    ensures Patched(g, s, s', ino, o, data, from, to)
  {
  }

  /** Copies `d`, which fits in the block that holds position `p`, to that position. A block
      that is replaced entirely is not read first. */
  method PatchBlock(v: Volume, ino: nat, q: nat, r: nat, d: seq<byte>, ghost p: nat)
    requires v.Sound() && ino in v.nodes && (q, r) == Split(p, v.geo.blockBytes)
    requires r + |d| <= v.geo.blockBytes && Lba(v.geo, v.St(), ino, q) != 0
    modifies v`disk
    ensures v.Sound()
    ensures forall i: nat, l: Loc :: Ptr(v.St(), i, l) == old(Ptr(v.St(), i, l))
    ensures Patched(v.geo, old(v.St()), v.St(), ino, p, d, 0, |d|)
  {
    var lba := v.BlockLba(ino, q);
    var blk := if |d| < v.geo.blockBytes then Splice(v.disk[lba], r, d) else d;
    assert blk == Splice(v.disk[lba], r, d);
    v.WriteBlock(lba, blk);
    PatchBytes(v.geo, old(v.St()), v.owner, ino, p, d, v.St());
  }

  /** One round of the write loop: from position `from` of `data` up to the end of a block. */
  method WriteChunk(v: Volume, ino: nat, o: nat, data: seq<byte>, from: nat) returns (to: nat)
    requires v.Sound() && ino in v.nodes && from < |data|
    requires Lba(v.geo, v.St(), ino, Split(o + from, v.geo.blockBytes).0) != 0
    modifies v`disk
    ensures v.Sound() && from < to <= |data|
    ensures forall i: nat, l: Loc :: Ptr(v.St(), i, l) == old(Ptr(v.St(), i, l))
    ensures Patched(v.geo, old(v.St()), v.St(), ino, o, data, from, to)
  {
    var q, r := Locate(o + from, v.geo.blockBytes);
    to := from + Min(v.geo.blockBytes - r, |data| - from);
    var d := data[from..to];
    PatchBlock(v, ino, q, r, d, o + from);
    PatchedPart(v.geo, old(v.St()), v.St(), ino, o, data, from, to, d);
  }

  /** The copy loop of myfs_node_write, once every block it needs exists. */
  method WriteAll(v: Volume, ino: nat, offset: nat, data: seq<byte>)
    requires v.Sound() && ino in v.nodes && Dense(v.geo, v.St(), ino)
    requires BlocksOf(offset + |data|, v.geo.blockBytes) <= v.nodes[ino].blockCount
    modifies v`disk
    ensures v.Sound()
    ensures forall i: nat, l: Loc :: Ptr(v.St(), i, l) == old(Ptr(v.St(), i, l))
    ensures Patched(v.geo, old(v.St()), v.St(), ino, offset, data, 0, |data|)
  {
    var done := 0;
    while done < |data|
      invariant 0 <= done <= |data|
      invariant v.Sound()
      invariant forall i: nat, l: Loc :: Ptr(v.St(), i, l) == old(Ptr(v.St(), i, l))
      invariant Patched(v.geo, old(v.St()), v.St(), ino, offset, data, 0, done)
    {
      ghost var s := v.St();
      SplitMono(offset + done, offset + |data| - 1, v.geo.blockBytes);
      assert old(Lba(v.geo, v.St(), ino, Split(offset + done, v.geo.blockBytes).0)) != 0;
      var to := WriteChunk(v, ino, offset, data, done);
      PatchedTrans(v.geo, old(v.St()), s, v.St(), ino, offset, data, done, to);
      done := to;
    }
  }

  /** File contents after `data` was written at `offset`, extending the file if needed. */
  function Overlay(content: seq<byte>, offset: nat, data: seq<byte>): (r: seq<byte>)
    requires offset <= |content|
  {
    content[..offset] + data + if offset + |data| <= |content| then content[offset + |data|..] else []
  }

  /** `c'` is `c` with `data` at `offset`. Bytes between the end of `c` and the offset are open: the
      blocks there hold what they held before they were allocated. */
  predicate Overlaid(c: seq<byte>, offset: nat, data: seq<byte>, c': seq<byte>) {
    if data == [] then c' == c
    else
      && |c'| == (if offset + |data| > |c| then offset + |data| else |c|)
      && c'[offset..offset + |data|] == data
      && forall k :: 0 <= k < |c| && !(offset <= k < offset + |data|) ==> c'[k] == c[k]
  }

  /** Inside the file and at its end nothing is open. */
  lemma OverlaidIs(c: seq<byte>, offset: nat, data: seq<byte>, c': seq<byte>)
    requires offset <= |c| && Overlaid(c, offset, data, c')
    ensures c' == Overlay(c, offset, data)
  {
    var w := Overlay(c, offset, data);
    if data == [] {
      assert w == c;
    } else {
      forall k | 0 <= k < |w| ensures c'[k] == w[k] {
        if offset <= k < offset + |data| { assert c'[k] == c'[offset..offset + |data|][k - offset]; }
      }
    }
  }

  /** What was written is what is read there. */
  lemma ReadBack(c: seq<byte>, offset: nat, data: seq<byte>, c': seq<byte>)
    requires data != [] && Overlaid(c, offset, data, c')
    ensures Slice(c', offset, |data|) == data
  {
  }

  /** What is read elsewhere is what was there before. */
  lemma ReadElsewhere(c: seq<byte>, offset: nat, data: seq<byte>, c': seq<byte>, o: nat, n: nat)
    requires Overlaid(c, offset, data, c') && o + n <= |c| && (o + n <= offset || offset + |data| <= o)
    ensures Slice(c', o, n) == Slice(c, o, n)
  {
  }

  /** Two reads, one behind the other, give what one read gives. */
  lemma ReadsJoin(c: seq<byte>, o: nat, m: nat, n: nat)
    ensures Slice(c, o, m) + Slice(c, o + m, n) == Slice(c, o, m + n)
  {
  }

  /** The bytes after growing and writing are those of the specification. */
  lemma WrittenContent(g: Geometry, s: Store, owner: Owners, s1: Store, s': Store, ino: nat, offset: nat,
    data: seq<byte>)
    requires g.Ok() && Linked(s, owner) && ino in s.nodes && Dense(g, s, ino) && data != []
    requires Keeps(g, s, s1, ino) && Patched(g, s1, s', ino, offset, data, 0, |data|)
    requires ino in s'.nodes && s'.nodes[ino].size == if offset + |data| > s.nodes[ino].size then offset + |data|
      else s.nodes[ino].size
    ensures Overlaid(Content(g, s, ino), offset, data, Content(g, s', ino))
  {
    var c, w := Content(g, s, ino), Content(g, s', ino);
    forall k | 0 <= k < |c| && !(offset <= k < offset + |data|) ensures w[k] == c[k] {
      SplitMono(k, s.nodes[ino].size - 1, g.blockBytes);
      KeepsBytes(g, s, s1, ino, ino, k);
    }
    forall k | offset <= k < offset + |data| ensures w[k] == data[k - offset] { assert w[k] == ByteAt(g, s', ino, k); }
    assert w[offset..offset + |data|] == data;
  }

  /** File `i` looks the same in both states. */
  ghost predicate SameFile(g: Geometry, s: Store, s': Store, i: nat)
    requires g.Ok()
  {
    && i in s.nodes && i in s'.nodes && s'.nodes[i].kind == s.nodes[i].kind
    && Content(g, s', i) == Content(g, s, i)
  }

  lemma KeepsFiles(g: Geometry, s: Store, owner: Owners, s': Store, ino: nat)
    requires g.Ok() && Keeps(g, s, s', ino) && AllDense(g, s) && Linked(s, owner)
    ensures forall i :: i in s.nodes ==> SameFile(g, s, s', i)
  {
    forall i | i in s.nodes ensures SameFile(g, s, s', i) { KeepsContent(g, s, owner, s', ino, i); }
  }

  lemma PatchedOthers(g: Geometry, s: Store, s': Store, ino: nat, o: nat, data: seq<byte>)
    requires g.Ok() && Patched(g, s, s', ino, o, data, 0, |data|) && s'.nodes.Keys == s.nodes.Keys
    requires forall i :: i in s.nodes && i != ino ==> s'.nodes[i] == s.nodes[i]
    ensures forall i :: i in s.nodes && i != ino ==> SameFile(g, s, s', i)
  {
    forall i | i in s.nodes && i != ino ensures SameFile(g, s, s', i) {
      assert forall k :: 0 <= k < s.nodes[i].size ==>
        Content(g, s', i)[k] == ByteAt(g, s', i, k) == Content(g, s, i)[k];
    }
  }

  lemma SamePtrs(g: Geometry, s: Store, s': Store)
    requires g.Ok() && s'.disk == s.disk && forall i: nat, l: Loc :: Ptr(s', i, l) == Ptr(s, i, l)
    ensures forall i: nat, k: nat :: ByteAt(g, s', i, k) == ByteAt(g, s, i, k)
  {
  }

  lemma SamePtrsDense(g: Geometry, s: Store, s': Store)
    requires g.Ok() && AllDense(g, s) && forall i: nat, l: Loc :: Ptr(s', i, l) == Ptr(s, i, l)
    requires forall i :: i in s'.nodes ==> i in s.nodes && s'.nodes[i].blockCount == s.nodes[i].blockCount
    requires forall i :: i in s'.nodes ==> BlocksOf(s'.nodes[i].size, g.blockBytes) <= s'.nodes[i].blockCount
    ensures AllDense(g, s')
  {
    forall i | i in s'.nodes ensures Dense(g, s', i) {
      assert Dense(g, s, i);
      assert forall j: nat :: Lba(g, s', i, j) == Lba(g, s, i, j);
    }
  }

  /** The part of myfs_node_write after growing: copy, then extend the recorded size. */
  method WriteGrown(v: Volume, ino: nat, offset: nat, data: seq<byte>)
    requires Valid(v) && ino in v.nodes && offset + |data| < U32
    requires BlocksOf(offset + |data|, v.geo.blockBytes) <= v.nodes[ino].blockCount
    modifies v`disk, v`nodes
    ensures Valid(v) && v.nodes.Keys == old(v.nodes.Keys)
    ensures forall i :: i in v.nodes && i != ino ==> v.nodes[i] == old(v.nodes[i])
    ensures v.nodes[ino] == old(v.nodes[ino]).(size :=
              if offset + |data| > old(v.nodes[ino].size) then offset + |data| else old(v.nodes[ino].size))
    ensures Patched(v.geo, old(v.St()), v.St(), ino, offset, data, 0, |data|)
    ensures forall i: nat, l: Loc :: Ptr(v.St(), i, l) == old(Ptr(v.St(), i, l))
  {
    ghost var s := v.St();
    WriteAll(v, ino, offset, data);
    if offset + |data| > v.nodes[ino].size {
      ghost var s1 := v.St();
      v.Record(ino, v.nodes[ino].blockCount, offset + |data|);
      SamePtrs(v.geo, s1, v.St());
    }
    SamePtrsDense(v.geo, s, v.St());
  }

  /** myfs_node_write. Success replaces or appends exactly `data`; it fails exactly without room for
      the blocks and tables needed, and then changes no visible byte; no other file changes in
      either case. */
  method NodeWrite(v: Volume, ino: nat, offset: nat, data: seq<byte>) returns (r: int)
    requires Valid(v) && ino in v.nodes && offset + |data| + v.geo.blockBytes <= U32
    modifies v`disk, v`blockMap, v`bits, v`nodes, v`owner, v`loose
    ensures Valid(v) && v.nodes.Keys == old(v.nodes.Keys)
    ensures r == |data| || (r == -1 && data != [])
    ensures r >= 0 ==> v.nodes[ino].kind == old(v.nodes[ino].kind)
    ensures r >= 0 ==> Overlaid(old(Content(v.geo, v.St(), ino)), offset, data, Content(v.geo, v.St(), ino))
    ensures forall i :: i in v.nodes && (i != ino || r == -1) ==> SameFile(v.geo, old(v.St()), v.St(), i)
    ensures forall i :: i in v.nodes && i != ino ==> v.nodes[i] == old(v.nodes[i])
    ensures r == -1 <==>
      data != [] && !RoomFor(v.geo, old(v.St()), old(FreeBlocks(v)), ino, BlocksOf(offset + |data|, v.geo.blockBytes))
    ensures data == [] ==> v.St() == old(v.St()) && v.bits == old(v.bits)
    ensures r >= 0 && data != [] ==>
      Enlarged(v.geo, old(v.St()), old(v.bits), ino, BlocksOf(offset + |data|, v.geo.blockBytes), v.St(), v.bits)
  {
    hide Linked, Bitmapped, AllDense, Keeps, Patched, RoomFor, Content, Gained, Grew;
    ghost var s, owner := v.St(), v.owner;
    if |data| == 0 { return 0; }
    var target := CeilDiv(offset + |data|, v.geo.blockBytes);
    var ok := GrowTo(v, ino, target);
    ghost var s1, bits1 := v.St(), v.bits;
    KeepsFiles(v.geo, s, owner, s1, ino);
    KeepsFields(v.geo, s, s1, ino);
    if !ok { return -1; }
    WriteGrown(v, ino, offset, data);
    DenseAt(v.geo, s, ino);
    WrittenContent(v.geo, s, owner, s1, v.St(), ino, offset, data);
    PatchedOthers(v.geo, s1, v.St(), ino, offset, data);
    WrittenOthers(v.geo, s, s1, v.St(), ino);
    EnlargedSame(v.geo, s, old(v.bits), ino, target, s1, v.St(), v.bits);
    return |data|;
  }

  /** The inode has the blocks a size of `target` blocks takes, and exactly those it did not have
      before, with the tables lacking for them, are no longer free. */
  ghost predicate Enlarged(g: Geometry, s: Store, bits: seq<bool>, ino: nat, target: nat, s': Store, bits': seq<bool>)
    requires g.Ok()
  {
    && ino in s.nodes && ino in s'.nodes
    && var have := s.nodes[ino].blockCount; var more := if target > have then target - have else 0;
       s'.nodes[ino].blockCount == have + more && Grew(g, s, bits, ino, more, s', bits')
  }

  /** A write that stays inside the file needs nothing. */
  lemma Inside(g: Geometry, s: Store, free: nat, bits: seq<bool>, ino: nat, offset: nat)
    requires g.Ok() && AllDense(g, s) && ino in s.nodes && offset <= s.nodes[ino].size
    ensures RoomFor(g, s, free, ino, BlocksOf(offset, g.blockBytes))
    ensures Enlarged(g, s, bits, ino, BlocksOf(offset, g.blockBytes), s, bits)
  {
    assert Dense(g, s, ino);
    BlocksOfMono(offset, s.nodes[ino].size, g.blockBytes);
    GrewNone(g, s, bits, ino);
  }

  lemma EnlargedSame(g: Geometry, s: Store, bits: seq<bool>, ino: nat, target: nat, s1: Store, s2: Store,
    bits1: seq<bool>)
    requires g.Ok() && Enlarged(g, s, bits, ino, target, s1, bits1) && ino in s2.nodes
    requires s2.nodes[ino].blockCount == s1.nodes[ino].blockCount
    requires forall i: nat, l: Loc :: Ptr(s2, i, l) == Ptr(s1, i, l)
    ensures Enlarged(g, s, bits, ino, target, s2, bits1)
  {
    hide PathOf, Missing, Free, Gained;
    var have := s.nodes[ino].blockCount;
    var more := if target > have then target - have else 0;
    GainedSame(s, s1, s2, ino, Missing(g, s, ino, have, have + more));
  }

  lemma DenseAt(g: Geometry, s: Store, ino: nat)
    requires g.Ok() && AllDense(g, s) && ino in s.nodes
    ensures Dense(g, s, ino)
  {
  }

  lemma KeepsFields(g: Geometry, s: Store, s': Store, ino: nat)
    requires g.Ok() && Keeps(g, s, s', ino)
    ensures s'.nodes.Keys == s.nodes.Keys && ino in s.nodes && s'.nodes[ino].kind == s.nodes[ino].kind
    ensures s'.nodes[ino].size == s.nodes[ino].size
    ensures forall i :: i in s.nodes && i != ino ==> s'.nodes[i] == s.nodes[i]
  {
  }

  lemma WrittenOthers(g: Geometry, s: Store, s1: Store, s': Store, ino: nat)
    requires g.Ok() && s1.nodes.Keys == s.nodes.Keys && (forall i :: i in s.nodes ==> SameFile(g, s, s1, i))
    requires forall i :: i in s1.nodes && i != ino ==> SameFile(g, s1, s', i)
    ensures forall i :: i in s.nodes && i != ino ==> SameFile(g, s, s', i)
  {
    hide Content;
    forall i | i in s.nodes && i != ino
      ensures SameFile(g, s, s', i) { assert SameFile(g, s, s1, i) && SameFile(g, s1, s', i); }
  }

  /** Allocates the blocks a write needs beyond those the inode has. */
  method GrowTo(v: Volume, ino: nat, target: nat) returns (ok: bool)
    requires Valid(v) && ino in v.nodes
    modifies v`disk, v`blockMap, v`bits, v`nodes, v`owner, v`loose
    ensures Valid(v) && Keeps(v.geo, old(v.St()), v.St(), ino)
    ensures ok <==> RoomFor(v.geo, old(v.St()), old(FreeBlocks(v)), ino, target)
    ensures ok ==> Enlarged(v.geo, old(v.St()), old(v.bits), ino, target, v.St(), v.bits)
  {
    hide Linked, Bitmapped, AllDense, Keeps, Gained, Missing, PathOf, Grew, Free;
    if target > v.nodes[ino].blockCount {
      ok := BlocksAlloc(v, ino, target - v.nodes[ino].blockCount);
      KeepsNode(v.geo, old(v.St()), v.St(), ino);
    } else {
      KeepsRefl(v.geo, v.St(), ino);
      GrewNone(v.geo, v.St(), v.bits, ino);
      ok := true;
    }
  }

  /** Logical blocks `lo` .. `hi` of `ino` were unlinked; every other block of every inode is
      where it was and holds what it held. */
  ghost predicate Cut(g: Geometry, s: Store, s': Store, ino: nat, lo: nat, hi: nat)
    requires g.Ok()
  {
    && |s'.disk| == |s.disk|
    && s'.nodes.Keys == s.nodes.Keys && ino in s.nodes
    && (forall i :: i in s.nodes && i != ino ==> s'.nodes[i] == s.nodes[i])
    && s'.nodes[ino].kind == s.nodes[ino].kind
    && (forall i: nat, j: nat :: Lba(g, s', i, j) == if i == ino && lo <= j < hi then 0 else Lba(g, s, i, j))
    && (forall i: nat, j: nat :: var b := Lba(g, s', i, j); 0 < b < |s.disk| ==> s'.disk[b] == s.disk[b])
  }

  lemma CutStep(g: Geometry, s: Store, s1: Store, owner: Owners, s': Store, ino: nat, lo: nat, mid: nat)
    requires g.Ok() && lo <= mid && Linked(s1, owner)
    requires Cut(g, s, s1, ino, lo, mid) && Remapped(g, s1, owner, {Lba(g, s1, ino, mid)}, ino, mid, 0, s')
    ensures Cut(g, s, s', ino, lo, mid + 1)
  {
  }

  /** One round of the truncation loop: clears the block's bit, then its pointer. */
  method DropBlock(v: Volume, ino: nat, idx: nat) returns (ghost lba: nat)
    requires v.Sound() && v.loose == {} && ino in v.nodes && Lba(v.geo, v.St(), ino, idx) != 0
    modifies v`disk, v`blockMap, v`bits, v`nodes, v`owner, v`loose
    ensures v.Sound() && v.loose == {}
    ensures lba == old(Lba(v.geo, v.St(), ino, idx)) && v.geo.dataStart <= lba < v.geo.totalBlocks
    ensures v.bits == old(v.bits)[lba := false]
    ensures v.nodes.Keys == old(v.nodes.Keys)
    ensures v.nodes[ino].blockCount == old(v.nodes[ino].blockCount) && v.nodes[ino].size == old(v.nodes[ino].size)
    ensures Remapped(v.geo, old(v.St()), old(v.owner), {lba}, ino, idx, 0, v.St())
    ensures Shrunk(v.geo, old(v.St()), old(v.bits), ino, 1, v.St(), v.bits)
  {
    var b := v.BlockLba(ino, idx);
    GiveFree(v.geo, v.bits, b);
    v.ClearBit(b);
    StoredLacks(v.St(), ino, PathOf(v.geo.Ptrs(), idx));
    var _ := v.MapBlock(ino, idx, 0);
    lba := b;
  }

  /** `n` blocks became free and every table stayed. */
  ghost predicate Shrunk(g: Geometry, s: Store, bits: seq<bool>, ino: nat, n: nat, s': Store, bits': seq<bool>) {
    Gained(s, s', ino, {}) && |Free(g, bits')| == |Free(g, bits)| + n
  }

  lemma ShrunkNone(g: Geometry, s: Store, bits: seq<bool>, ino: nat)
    ensures Shrunk(g, s, bits, ino, 0, s, bits)
  {
    SameTables(s, s, ino);
  }

  lemma ShrunkTrans(g: Geometry, s: Store, bits: seq<bool>, ino: nat, m: nat, s1: Store, bits1: seq<bool>, n: nat,
    s': Store, bits': seq<bool>)
    requires Shrunk(g, s, bits, ino, m, s1, bits1) && Shrunk(g, s1, bits1, ino, n, s', bits')
    ensures Shrunk(g, s, bits, ino, m + n, s', bits')
  {
    hide Free;
    var none: set<Loc> := {};
    GainedTrans(s, s1, s', ino, none, none);
    assert none + none == none;
  }

  /** `b` is one of the logical blocks `lo` .. `hi` of `ino`. */
  ghost predicate IsBlock(g: Geometry, s: Store, ino: nat, lo: nat, hi: nat, b: nat)
    requires g.Ok()
  {
    exists j: nat :: lo <= j < hi && Lba(g, s, ino, j) == b
  }

  /** The bitmap lost exactly the logical blocks `lo` .. `hi` of `ino`. */
  ghost predicate BitsCut(g: Geometry, s: Store, bits: seq<bool>, bits': seq<bool>, ino: nat, lo: nat, hi: nat)
    requires g.Ok()
  {
    && |bits'| == |bits|
    && forall b :: 0 <= b < |bits| ==> (bits'[b] <==> bits[b] && !IsBlock(g, s, ino, lo, hi, b))
  }

  lemma BitsCutStep(g: Geometry, s: Store, bits: seq<bool>, bits1: seq<bool>, ino: nat, lo: nat, hi: nat)
    requires g.Ok() && lo <= hi && BitsCut(g, s, bits, bits1, ino, lo, hi) && Lba(g, s, ino, hi) < |bits|
    ensures BitsCut(g, s, bits, bits1[Lba(g, s, ino, hi) := false], ino, lo, hi + 1)
  {
    forall b: nat
      ensures IsBlock(g, s, ino, lo, hi + 1, b) <==> IsBlock(g, s, ino, lo, hi, b) || b == Lba(g, s, ino, hi)
    {
      if IsBlock(g, s, ino, lo, hi, b) {
        var j: nat :| lo <= j < hi && Lba(g, s, ino, j) == b;
        assert lo <= j < hi + 1;
      }
    }
  }

  lemma CutNone(g: Geometry, s: Store, bits: seq<bool>, ino: nat, lo: nat)
    requires g.Ok() && ino in s.nodes
    ensures Cut(g, s, s, ino, lo, lo) && BitsCut(g, s, bits, bits, ino, lo, lo)
  {
  }

  lemma CutNext(g: Geometry, s: Store, s1: Store, ino: nat, lo: nat, i: nat)
    requires g.Ok() && AllDense(g, s) && ino in s.nodes && i < s.nodes[ino].blockCount && Cut(g, s, s1, ino, lo, i)
    ensures Lba(g, s1, ino, i) == Lba(g, s, ino, i) != 0
  {
    assert Dense(g, s, ino);
  }

  /** The truncation loop: the bitmap loses exactly the blocks cut off. */
  method DropBlocks(v: Volume, ino: nat, lo: nat)
    requires Valid(v) && ino in v.nodes && lo <= v.nodes[ino].blockCount
    modifies v`disk, v`blockMap, v`bits, v`nodes, v`owner, v`loose
    ensures v.Sound() && v.loose == {}
    ensures Cut(v.geo, old(v.St()), v.St(), ino, lo, old(v.nodes[ino].blockCount))
    ensures v.nodes[ino].blockCount == old(v.nodes[ino].blockCount) && v.nodes[ino].size == old(v.nodes[ino].size)
    ensures BitsCut(v.geo, old(v.St()), old(v.bits), v.bits, ino, lo, old(v.nodes[ino].blockCount))
    ensures Shrunk(v.geo, old(v.St()), old(v.bits), ino, old(v.nodes[ino].blockCount) - lo, v.St(), v.bits)
  {
    hide Shrunk, Cut, BitsCut, Remapped, Linked, Bitmapped, AllDense, PathOf;
    var i := lo;
    ghost var s0, n := v.St(), v.nodes[ino].blockCount;
    ShrunkNone(v.geo, s0, v.bits, ino);
    CutNone(v.geo, s0, v.bits, ino, lo);
    while i < v.nodes[ino].blockCount
      invariant ino in v.nodes && lo <= i <= n == v.nodes[ino].blockCount
      invariant v.Sound() && v.loose == {} && v.nodes[ino].size == s0.nodes[ino].size
      invariant Cut(v.geo, s0, v.St(), ino, lo, i)
      invariant BitsCut(v.geo, s0, old(v.bits), v.bits, ino, lo, i)
      invariant Shrunk(v.geo, s0, old(v.bits), ino, i - lo, v.St(), v.bits)
    {
      ghost var s1, owner, bits := v.St(), v.owner, v.bits;
      CutNext(v.geo, s0, s1, ino, lo, i);
      ghost var lba := DropBlock(v, ino, i);
      CutStep(v.geo, s0, s1, owner, v.St(), ino, lo, i);
      BitsCutStep(v.geo, s0, old(v.bits), bits, ino, lo, i);
      ShrunkTrans(v.geo, s0, old(v.bits), ino, i - lo, s1, bits, 1, v.St(), v.bits);
      i := i + 1;
    }
  }

  lemma ShrunkSame(g: Geometry, s: Store, bits: seq<bool>, ino: nat, n: nat, s1: Store, s2: Store, bits1: seq<bool>)
    requires Shrunk(g, s, bits, ino, n, s1, bits1) && forall i: nat, l: Loc :: Ptr(s2, i, l) == Ptr(s1, i, l)
    ensures Shrunk(g, s, bits, ino, n, s2, bits1)
  {
    GainedSame(s, s1, s2, ino, {});
  }

  lemma CutFields(g: Geometry, s: Store, s1: Store, s': Store, ino: nat, lo: nat, hi: nat)
    requires g.Ok() && Cut(g, s, s1, ino, lo, hi) && s'.disk == s1.disk && s'.nodes.Keys == s1.nodes.Keys
    requires forall i :: i in s1.nodes && i != ino ==> s'.nodes[i] == s1.nodes[i]
    requires s'.nodes[ino].kind == s1.nodes[ino].kind
    requires forall i: nat, l: Loc :: Ptr(s', i, l) == Ptr(s1, i, l)
    ensures Cut(g, s, s', ino, lo, hi)
  {
    assert forall i: nat, j: nat :: Lba(g, s', i, j) == Lba(g, s1, i, j);
  }

  lemma BlocksOfMono(m: nat, n: nat, d: nat)
    requires 0 < d && m <= n
    ensures BlocksOf(m, d) <= BlocksOf(n, d)
  {
    if m > 0 { SplitMono(m - 1, n - 1, d); }
  }

  /** After the cut and the new counts, every inode is dense again and the file is a prefix. */
  lemma CutDense(g: Geometry, s: Store, s': Store, ino: nat, n: nat)
    requires g.Ok() && AllDense(g, s) && ino in s.nodes && Cut(g, s, s', ino, n, s.nodes[ino].blockCount)
    requires n <= s.nodes[ino].blockCount
    requires s'.nodes[ino].blockCount == n && BlocksOf(s'.nodes[ino].size, g.blockBytes) <= n
    ensures AllDense(g, s')
  {
    forall i | i in s'.nodes ensures Dense(g, s', i) { assert Dense(g, s, i); }
  }

  lemma CutContent(g: Geometry, s: Store, owner: Owners, s': Store, ino: nat, n: nat, i: nat)
    requires g.Ok() && AllDense(g, s) && Linked(s, owner) && i in s.nodes && ino in s.nodes
    requires Cut(g, s, s', ino, n, s.nodes[ino].blockCount) && n <= s.nodes[ino].blockCount
    requires s'.nodes[i].size <= s.nodes[i].size && (i == ino ==> BlocksOf(s'.nodes[i].size, g.blockBytes) <= n)
    ensures Content(g, s', i) == Content(g, s, i)[..s'.nodes[i].size]
  {
    var m := s'.nodes[i].size;
    forall k | 0 <= k < m ensures ByteAt(g, s', i, k) == ByteAt(g, s, i, k) {
      SplitMono(k, m - 1, g.blockBytes);
      var j := Split(k, g.blockBytes).0;
      assert Lba(g, s', i, j) == Lba(g, s, i, j);
    }
  }

  /** myfs_inode_truncate. Shrinking frees exactly the blocks past the new end and leaves the
      file's prefix; growing only records the size, which the blocks may then not cover. */
  method Truncate(v: Volume, ino: nat, newSize: u32)
    requires Valid(v) && ino in v.nodes
    modifies v`disk, v`blockMap, v`bits, v`nodes, v`owner, v`loose
    ensures v.Sound() && v.loose == {} && v.nodes.Keys == old(v.nodes.Keys) && v.nodes[ino].size == newSize
    ensures Valid(v) <==> BlocksOf(newSize, v.geo.blockBytes) <= old(v.nodes[ino].blockCount)
    ensures newSize < old(v.nodes[ino].size) ==>
      && Content(v.geo, v.St(), ino) == old(Content(v.geo, v.St(), ino))[..newSize]
      && v.nodes[ino].kind == old(v.nodes[ino].kind)
      && BitsCut(v.geo, old(v.St()), old(v.bits), v.bits, ino, BlocksOf(newSize, v.geo.blockBytes),
        old(v.nodes[ino].blockCount))
      && (forall i :: i in v.nodes && i != ino ==>
        SameFile(v.geo, old(v.St()), v.St(), i) && v.nodes[i] == old(v.nodes[i]))
      && v.nodes[ino].blockCount == BlocksOf(newSize, v.geo.blockBytes) <= old(v.nodes[ino].blockCount)
      && Shrunk(v.geo, old(v.St()), old(v.bits), ino, old(v.nodes[ino].blockCount) - v.nodes[ino].blockCount, v.St(),
        v.bits)
    ensures newSize >= old(v.nodes[ino].size) ==>
      && v.bits == old(v.bits) && v.disk == old(v.disk)
      && v.nodes == old(v.nodes)[ino := old(v.nodes[ino]).(size := newSize)]
  {
    if newSize < v.nodes[ino].size {
      Shrink(v, ino, newSize);
    } else {
      ghost var s := v.St();
      v.Record(ino, v.nodes[ino].blockCount, newSize);
      if BlocksOf(newSize, v.geo.blockBytes) <= s.nodes[ino].blockCount { SamePtrsDense(v.geo, s, v.St()); }
    }
  }

  /** The shrinking branch. */
  method Shrink(v: Volume, ino: nat, newSize: u32)
    requires Valid(v) && ino in v.nodes && newSize < v.nodes[ino].size
    modifies v`disk, v`blockMap, v`bits, v`nodes, v`owner, v`loose
    ensures Valid(v) && v.nodes.Keys == old(v.nodes.Keys)
    ensures v.nodes[ino].size == newSize && v.nodes[ino].kind == old(v.nodes[ino].kind)
    ensures BlocksOf(newSize, v.geo.blockBytes) <= old(v.nodes[ino].blockCount)
    ensures Content(v.geo, v.St(), ino) == old(Content(v.geo, v.St(), ino))[..newSize]
    ensures BitsCut(v.geo, old(v.St()), old(v.bits), v.bits, ino, BlocksOf(newSize, v.geo.blockBytes),
      old(v.nodes[ino].blockCount))
    ensures forall i :: i in v.nodes && i != ino ==>
      SameFile(v.geo, old(v.St()), v.St(), i) && v.nodes[i] == old(v.nodes[i])
    ensures v.nodes[ino].blockCount == BlocksOf(newSize, v.geo.blockBytes)
    ensures Shrunk(v.geo, old(v.St()), old(v.bits), ino, old(v.nodes[ino].blockCount) - v.nodes[ino].blockCount,
      v.St(), v.bits)
  {
    hide Shrunk, BitsCut, Linked, Bitmapped, PathOf, ByteAt, BlocksOf;
    ghost var s, owner := v.St(), v.owner;
    var n := CeilDiv(newSize, v.geo.blockBytes);
    BlocksOfMono(newSize, v.nodes[ino].size, v.geo.blockBytes);
    DropBlocks(v, ino, n);
    ghost var s1 := v.St();
    v.Record(ino, n, newSize);
    ShrunkSame(v.geo, s, old(v.bits), ino, s.nodes[ino].blockCount - n, s1, v.St(), v.bits);
    CutFields(v.geo, s, s1, v.St(), ino, n, s.nodes[ino].blockCount);
    CutDense(v.geo, s, v.St(), ino, n);
    CutContent(v.geo, s, owner, v.St(), ino, n, ino);
    forall i | i in v.nodes && i != ino ensures SameFile(v.geo, s, v.St(), i) {
      CutContent(v.geo, s, owner, v.St(), ino, n, i);
    }
  }
}
