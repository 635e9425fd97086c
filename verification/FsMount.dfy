/** Unmounting a volume and mounting it again: the inode cache and both bitmaps go to disk and come
    back from it. */
module FsMount {
  import opened Common
  import opened Bytes
  import opened Bitmap
  import opened FsLayout
  import opened FsGraph
  import opened FsVolume
  import opened FsFile
  import opened FsInode
  import opened FsDir
  import opened FsRun
  import FsFormat
  import opened FsTable
  import opened FsCache

  /** The first blocks of the bitmaps and of the inode table, as the superblock gives them. */
  datatype Places = Places(blocks: nat, inodes: nat, table: nat)

  /** The metadata regions follow each other, block 0 being the superblock, and each holds what is
      stored in it. */
  ghost predicate Fit(l: Places, g: Geometry, blockBytes: nat, inodeBytes: nat) {
    && 0 < g.blockBytes && 0 < l.blocks
    && l.blocks + BlocksOf(blockBytes, g.blockBytes) <= l.inodes
    && l.inodes + BlocksOf(inodeBytes, g.blockBytes) <= l.table
    && l.table + BlocksOf(INODE * (8 * inodeBytes), g.blockBytes) <= g.dataStart
  }

  /** The inode that the bytes of a slot stand for: pointers, counts, size and type. */
  function InodeOf(body: seq<byte>): Inode
    requires |body| == BODY
  {
    Inode(if Word(body, 56) / 0x1000 % 16 == 4 then Directory else Regular,
          seq(DIRECT, k requires 0 <= k < DIRECT => Word(body, 4 * k)),
          Word(body, 40), Word(body, 44), Word(body, 48), Word(body, 52))
  }

  /** These are the words of the inode structure as it is kept in memory and on disk: after the number,
      the direct pointers, the two tables, the counts and the mode. */
  lemma StructFields(image: seq<byte>)
    requires |image| == INODE
    ensures var nd := InodeOf(BodyOf(image));
      && |nd.ptrs| == DIRECT && (forall k :: 0 <= k < DIRECT ==> nd.ptrs[k] == Word(image, 4 * (k + 1)))
      && nd.single == Word(image, 44) && nd.double == Word(image, 48)
      && nd.blockCount == Word(image, 52) && nd.size == Word(image, 56)
      && (nd.kind == Directory <==> Word(image, 60) / 0x1000 % 16 == 4)
  {
    var body := BodyOf(image);
    forall k | 0 <= k < 15 ensures Word(body, 4 * k) == Word(image, 4 * (k + 1)) { BodyWord(image, k); }
    assert Word(body, 4 * 10) == Word(image, 44) && Word(body, 4 * 11) == Word(image, 48);
    assert Word(body, 4 * 12) == Word(image, 52) && Word(body, 4 * 13) == Word(image, 56);
    assert Word(body, 4 * 14) == Word(image, 60);
  }

  lemma BodyWord(image: seq<byte>, k: nat)
    requires |image| == INODE && k < 15
    ensures Word(BodyOf(image), 4 * k) == Word(image, 4 * (k + 1))
  {
    var body := BodyOf(image);
    forall j | 4 * k <= j < 4 * k + 4 ensures body[j] == image[j + 4] { }
  }

  /** Storing a word of the structure changes the field that is kept there and no other. */
  lemma FieldStored(image: seq<byte>, k: nat, x: u32)
    requires |image| == INODE && k < 28
    ensures var nd, nd' := InodeOf(BodyOf(image)), InodeOf(BodyOf(Splice(image, 4 * k, WordBytes(x))));
      && |nd.ptrs| == |nd'.ptrs| == DIRECT
      && (forall j :: 0 <= j < DIRECT ==> nd'.ptrs[j] == if k == j + 1 then x else nd.ptrs[j])
      && nd'.single == (if k == 11 then x else nd.single) && nd'.double == (if k == 12 then x else nd.double)
      && nd'.blockCount == (if k == 13 then x else nd.blockCount) && nd'.size == (if k == 14 then x else nd.size)
      && (k != 15 ==> nd'.kind == nd.kind)
  {
    hide InodeOf, BodyOf;
    var image' := Splice(image, 4 * k, WordBytes(x));
    StructFields(image);
    StructFields(image');
    forall j | 1 <= j <= 15 ensures Word(image', 4 * j) == if j == k then x else Word(image, 4 * j) {
      WordSplice(image, k, x, j);
    }
    assert Word(image', 4 * 11) == Word(image', 44) && Word(image', 4 * 12) == Word(image', 48);
    assert Word(image', 4 * 13) == Word(image', 52) && Word(image', 4 * 14) == Word(image', 56);
    assert Word(image', 4 * 15) == Word(image', 60);
  }

  function Pack(m: Bits): seq<byte> {
    seq(|m|, k requires 0 <= k < |m| => m[k] as int)
  }

  function Unpack(b: seq<byte>): Bits {
    seq(|b|, k requires 0 <= k < |b| => b[k] as bv8)
  }

  lemma PackBack(m: Bits)
    ensures Unpack(Pack(m)) == m
  {
    forall k | 0 <= k < |m| ensures Unpack(Pack(m))[k] == m[k] { ByteBack(m[k]); }
  }

  lemma ByteBack(b: bv8)
    ensures (b as int) as bv8 == b
  {
  }

  /** The bytes from block `at` on are `buf`. */
  ghost predicate Stored(disk: seq<Block>, bb: nat, at: nat, buf: seq<byte>)
    requires 0 < bb
  {
    forall p: nat :: p < |buf| ==> TableByte(disk, bb, at, p) == buf[p]
  }

  /** Only blocks lo..hi differ. */
  ghost predicate Within(disk: seq<Block>, disk': seq<Block>, lo: nat, hi: nat) {
    |disk'| == |disk| && forall b :: 0 <= b < |disk| && !(lo <= b < hi) ==> disk'[b] == disk[b]
  }

  /** A whole number of blocks, and one more for what is left. */
  lemma BlocksAt(done: nat, i: nat, bb: nat, n: nat)
    requires 0 < bb && Split(done, bb) == (i, 0) && done <= n
    ensures i + (if done < n then 1 else 0) <= BlocksOf(n, bb)
  {
    if done < n {
      SplitMono(done, n - 1, bb);
    } else if n > 0 {
      if Split(n - 1, bb).1 < bb - 1 { SplitWithin(n - 1, 1, bb); }
      SplitNext(n - 1, bb);
    }
  }

  /** One block of a bitmap. */
  method PutPart(disk: seq<Block>, bb: nat, at: nat, i: nat, buf: seq<byte>, done: nat, n: nat,
    ghost disk0: seq<Block>) returns (disk': seq<Block>)
    requires Blocks(disk, bb) && 0 < n <= bb && done + n <= |buf| && Split(done, bb) == (i, 0) && at + i < |disk|
    requires Stored(disk, bb, at, buf[..done]) && Within(disk0, disk, at, at + i)
    ensures Blocks(disk', bb) && Stored(disk', bb, at, buf[..done + n]) && Within(disk0, disk', at, at + i + 1)
    ensures n == bb ==> Split(done + n, bb) == (i + 1, 0)
  {
    disk' := disk[at + i := buf[done..done + n] + Zeros(bb - n)];
    forall p: nat | p < done + n ensures TableByte(disk', bb, at, p) == buf[..done + n][p] {
      if p < done {
        SplitMono(p, done, bb);
        assert TableByte(disk, bb, at, p) == buf[..done][p];
      } else {
        SplitWithin(done, p - done, bb);
      }
    }
    SplitNext(done, bb);
  }

  /** disk_write_bitmap: whole blocks, then the rest padded with zeros. */
  method WriteBitmap(disk: seq<Block>, bb: nat, at: nat, buf: seq<byte>) returns (disk': seq<Block>)
    requires Blocks(disk, bb) && at + BlocksOf(|buf|, bb) <= |disk|
    ensures Blocks(disk', bb) && Stored(disk', bb, at, buf) && Within(disk, disk', at, at + BlocksOf(|buf|, bb))
  {
    disk' := disk;
    var i, done := 0, 0;
    while done + bb <= |buf|
      invariant 0 <= done <= |buf| && Split(done, bb) == (i, 0) && Blocks(disk', bb)
      invariant Stored(disk', bb, at, buf[..done]) && Within(disk, disk', at, at + i)
    {
      BlocksAt(done, i, bb, |buf|);
      disk' := PutPart(disk', bb, at, i, buf, done, bb, disk);
      i, done := i + 1, done + bb;
    }
    BlocksAt(done, i, bb, |buf|);
    if done < |buf| {
      disk' := PutPart(disk', bb, at, i, buf, done, |buf| - done, disk);
      assert buf[..|buf|] == buf;
    }
  }

  /** disk_read_bitmap: whole blocks, then the first bytes of one more. */
  method ReadBitmap(disk: seq<Block>, bb: nat, at: nat, n: nat) returns (buf: seq<byte>)
    requires Blocks(disk, bb) && at + BlocksOf(n, bb) <= |disk|
    ensures |buf| == n && Stored(disk, bb, at, buf)
  {
    buf := [];
    var i := 0;
    while |buf| + bb <= n
      invariant |buf| <= n && Split(|buf|, bb) == (i, 0) && Stored(disk, bb, at, buf)
      decreases n - |buf|
    {
      BlocksAt(|buf|, i, bb, n);
      GetPart(disk, bb, at, i, buf, bb);
      buf, i := buf + disk[at + i][..bb], i + 1;
    }
    if |buf| < n {
      BlocksAt(|buf|, i, bb, n);
      GetPart(disk, bb, at, i, buf, n - |buf|);
      buf := buf + disk[at + i][..n - |buf|];
    }
  }

  lemma GetPart(disk: seq<Block>, bb: nat, at: nat, i: nat, buf: seq<byte>, n: nat)
    requires Blocks(disk, bb) && 0 < n <= bb && Split(|buf|, bb) == (i, 0) && at + i < |disk|
    requires Stored(disk, bb, at, buf)
    ensures Stored(disk, bb, at, buf + disk[at + i][..n]) && (n == bb ==> Split(|buf| + n, bb) == (i + 1, 0))
  {
    var buf' := buf + disk[at + i][..n];
    forall p: nat | p < |buf'| ensures TableByte(disk, bb, at, p) == buf'[p] {
      if p >= |buf| { SplitWithin(|buf|, p - |buf|, bb); }
    }
    SplitNext(|buf|, bb);
  }

  /** What is stored is determined by the blocks it is stored in. */
  lemma StoredSame(disk: seq<Block>, disk': seq<Block>, bb: nat, at: nat, buf: seq<byte>)
    requires 0 < bb && |disk'| == |disk| && Stored(disk, bb, at, buf)
    requires forall b :: at <= b < at + BlocksOf(|buf|, bb) && b < |disk| ==> disk'[b] == disk[b]
    ensures Stored(disk', bb, at, buf)
  {
    forall p: nat | p < |buf| ensures TableByte(disk', bb, at, p) == buf[p] {
      SplitMono(p, |buf| - 1, bb);
      assert TableByte(disk, bb, at, p) == buf[p];
    }
  }

  lemma StoredOnce(disk: seq<Block>, bb: nat, at: nat, a: seq<byte>, b: seq<byte>)
    requires 0 < bb && Stored(disk, bb, at, a) && Stored(disk, bb, at, b) && |a| == |b|
    ensures a == b
  {
    forall p | 0 <= p < |a| ensures a[p] == b[p] { assert TableByte(disk, bb, at, p) == a[p]; }
  }

  /** The slots of the inode table depend on the blocks from the table on. */
  lemma SlotsSame(disk: seq<Block>, disk': seq<Block>, bb: nat, table: nat, j: nat)
    requires 0 < bb && |disk'| == |disk| && forall b :: table <= b < |disk| ==> disk'[b] == disk[b]
    ensures SlotImage(disk', bb, table, j) == SlotImage(disk, bb, table, j)
  {
    forall k | 0 <= k < INODE ensures SlotImage(disk', bb, table, j)[k] == SlotImage(disk, bb, table, j)[k] {
      assert TableByte(disk', bb, table, INODE * j + k) == TableByte(disk, bb, table, INODE * j + k);
    }
  }

  /** What unmounting leaves on disk: both bitmaps and the slots of the inodes that were flushed. The
      superblock and the data area are as before. */
  ghost predicate Written(chains: Chains, disk: seq<Block>, disk': seq<Block>, g: Geometry, l: Places,
    blockMap: Bits, inodeMap: Bits) {
    && |chains| == BUCKETS && Blocks(disk', g.blockBytes) && |disk'| == |disk|
    && (forall b :: 0 <= b < |disk| && (b == 0 || g.dataStart <= b) ==> disk'[b] == disk[b])
    && Stored(disk', g.blockBytes, l.blocks, Pack(blockMap)) && Stored(disk', g.blockBytes, l.inodes, Pack(inodeMap))
    && (forall j: nat :: SlotFlushed(chains, disk, disk', g.blockBytes, l.table, j, true))
  }

  /** myfs_sb_kill. */
  method Unmount(c: InodeCache, g: Geometry, l: Places, blockMap: Bits, inodeMap: Bits)
    requires c.Ok() && Flushable(c.chains, c.live) && c.bb == g.blockBytes && c.start == l.table
    requires Fit(l, g, |blockMap|, |inodeMap|) && g.dataStart <= |c.disk| && |c.live| == 8 * |inodeMap|
    modifies c`chains, c`disk
    ensures c.Ok() && Written(old(c.chains), old(c.disk), c.disk, g, l, blockMap, inodeMap)
  {
    hide TableOnly, SlotFlushed, Stored, BlocksOf;
    var disk0 := c.disk;
    c.Flush();
    var disk1 := c.disk;
    TableBlocks(disk0, disk1, g, l, |blockMap|, |inodeMap|);
    var disk2 := WriteBitmap(c.disk, c.bb, l.blocks, Pack(blockMap));
    var disk3 := WriteBitmap(disk2, c.bb, l.inodes, Pack(inodeMap));
    c.disk := disk3;
    StoredSame(disk2, disk3, c.bb, l.blocks, Pack(blockMap));
    forall j: nat ensures SlotFlushed(old(c.chains), disk0, disk3, c.bb, l.table, j, true) {
      SlotsSame(disk1, disk3, c.bb, l.table, j);
      SlotThere(old(c.chains), disk0, disk1, disk3, c.bb, l.table, j);
    }
  }

  lemma TableBlocks(disk: seq<Block>, disk': seq<Block>, g: Geometry, l: Places, blockBytes: nat, inodeBytes: nat)
    requires Fit(l, g, blockBytes, inodeBytes) && TableOnly(disk, disk', g.blockBytes, l.table, 8 * inodeBytes)
    ensures Within(disk, disk', l.table, g.dataStart)
  {
  }

  lemma SlotThere(chains: Chains, disk: seq<Block>, disk1: seq<Block>, disk2: seq<Block>, bb: nat, table: nat, j: nat)
    requires |chains| == BUCKETS && 0 < bb && SlotFlushed(chains, disk, disk1, bb, table, j, true)
    requires SlotImage(disk2, bb, table, j) == SlotImage(disk1, bb, table, j)
    ensures SlotFlushed(chains, disk, disk2, bb, table, j, true)
  {
    hide BodyOf, SlotImage;
  }

  /** myfs_sb_read: both bitmaps are read, and nothing is cached. */
  method Mount(disk: seq<Block>, g: Geometry, l: Places, blockBytes: nat, inodeBytes: nat)
    returns (c: InodeCache, blockMap: Bits, inodeMap: Bits)
    requires Blocks(disk, g.blockBytes) && Fit(l, g, blockBytes, inodeBytes) && g.dataStart <= |disk|
    requires 8 * inodeBytes < U32
    ensures fresh(c) && c.Ok() && c.bb == g.blockBytes && c.start == l.table && c.disk == disk
    ensures c.live == View(inodeMap) && forall j: nat :: Entry(c.chains, j) == None
    ensures |blockMap| == blockBytes && |inodeMap| == inodeBytes
    ensures forall m: Bits :: Stored(disk, g.blockBytes, l.blocks, Pack(m)) && |m| == blockBytes ==> blockMap == m
    ensures forall m: Bits :: Stored(disk, g.blockBytes, l.inodes, Pack(m)) && |m| == inodeBytes ==> inodeMap == m
  {
    var b := ReadBitmap(disk, g.blockBytes, l.blocks, blockBytes);
    var i := ReadBitmap(disk, g.blockBytes, l.inodes, inodeBytes);
    blockMap, inodeMap := Unpack(b), Unpack(i);
    hide Pack, Unpack, Stored, View;
    forall m: Bits | Stored(disk, g.blockBytes, l.blocks, Pack(m)) && |m| == blockBytes ensures blockMap == m {
      ReadBack(disk, g.blockBytes, l.blocks, b, m);
    }
    forall m: Bits | Stored(disk, g.blockBytes, l.inodes, Pack(m)) && |m| == inodeBytes ensures inodeMap == m {
      ReadBack(disk, g.blockBytes, l.inodes, i, m);
    }
    c := new InodeCache(g.blockBytes, l.table, disk, View(inodeMap));
  }

  lemma ReadBack(disk: seq<Block>, bb: nat, at: nat, b: seq<byte>, m: Bits)
    requires 0 < bb && Stored(disk, bb, at, b) && Stored(disk, bb, at, Pack(m)) && |b| == |m|
    ensures Unpack(b) == m
  {
    StoredOnce(disk, bb, at, b, Pack(m));
    PackBack(m);
  }

  /** The cache and the volume are one: the same disk and the same live inodes, whose values the cache
      has or the disk holds. */
  ghost predicate Joined(v: Volume, c: InodeCache, l: Places)
    reads v, c
  {
    && c.Ok() && c.disk == v.disk && c.bb == v.geo.blockBytes && c.start == l.table && c.live == v.inodeBits
    && (forall i :: i in v.nodes ==> InodeOf(c.Value(i)) == v.nodes[i])
  }

  /** Inode `i` comes back as it was: it was not cached, or it was flushed, or its slot stood for the
      same inode before. */
  ghost predicate Survives(chains: Chains, disk: seq<Block>, bb: nat, table: nat, i: nat)
    requires |chains| == BUCKETS && 0 < bb && Chained(chains)
  {
    Entry(chains, i).Some? ==>
      (IsDirty(Entry(chains, i)) && IsHead(chains, i))
      || InodeOf(BodyOf(SlotImage(disk, bb, table, i))) == InodeOf(BodyIn(chains, i))
  }

  /** With at most 256 inodes, every one survives that is marked dirty when it is changed. */
  lemma SmallSurvives(chains: Chains, disk: seq<Block>, bb: nat, table: nat, i: nat)
    requires |chains| == BUCKETS && 0 < bb && Chained(chains) && forall j: nat :: Entry(chains, j).Some? ==> j < 256
    requires Entry(chains, i).Some? && !IsDirty(Entry(chains, i)) ==>
      InodeOf(BodyOf(SlotImage(disk, bb, table, i))) == InodeOf(BodyIn(chains, i))
    ensures Survives(chains, disk, bb, table, i)
  {
    hide InodeOf, BodyOf, SlotImage;
    if Entry(chains, i).Some? { AloneInChain(chains, i); }
  }

  ghost function BodyIn(chains: Chains, i: nat): (b: seq<byte>)
    requires Chained(chains) && Entry(chains, i).Some?
    ensures |b| == BODY && b == Entry(chains, i).value.body
  {
    Entry(chains, i).value.body
  }

  /** Pointers are followed in the data area only. */
  lemma SamePtrs(g: Geometry, s: Store, s': Store, bits: seq<bool>, owner: Owners)
    requires g.totalBlocks <= |bits| && |s.disk| == |s'.disk| == g.totalBlocks && Linked(s, owner)
    requires Bitmapped(g, bits, owner, {}) && s'.nodes == s.nodes
    requires forall b :: g.dataStart <= b < |s.disk| ==> s'.disk[b] == s.disk[b]
    ensures forall i: nat, loc: Loc :: Ptr(s', i, loc) == Ptr(s, i, loc)
    ensures forall i: nat, loc: Loc :: Ptr(s, i, loc) != 0 ==>
      Ptr(s, i, loc) < |s.disk| && s'.disk[Ptr(s, i, loc)] == s.disk[Ptr(s, i, loc)]
  {
    forall i: nat, loc: Loc ensures Ptr(s', i, loc) == Ptr(s, i, loc) {
      assert Ptr(s, i, Single) != 0 ==> Ptr(s, i, Single) in owner;
      assert Ptr(s, i, Double) != 0 ==> Ptr(s, i, Double) in owner;
      if loc.Leaf? && loc.path.Nested? { assert Ptr(s, i, Sub(loc.path.table)) != 0 ==>
        Ptr(s, i, Sub(loc.path.table)) in owner; }
    }
  }

  /** So files are as before if the inodes and the data area are. */
  lemma SameContents(g: Geometry, s: Store, s': Store)
    requires g.Ok() && s'.nodes == s.nodes && |s'.disk| == |s.disk|
    requires forall i: nat, loc: Loc :: Ptr(s', i, loc) == Ptr(s, i, loc)
    requires forall i: nat, loc: Loc :: Ptr(s, i, loc) != 0 ==>
      Ptr(s, i, loc) < |s.disk| && s'.disk[Ptr(s, i, loc)] == s.disk[Ptr(s, i, loc)]
    ensures forall i :: i in s.nodes ==> Content(g, s', i) == Content(g, s, i)
  {
    forall i | i in s.nodes ensures Content(g, s', i) == Content(g, s, i) {
      forall k: nat | k < s.nodes[i].size ensures ByteAt(g, s', i, k) == ByteAt(g, s, i, k) {}
    }
  }

  lemma SameDense(g: Geometry, s: Store, s': Store)
    requires g.Ok() && s'.nodes == s.nodes && AllDense(g, s) && forall i: nat, loc: Loc ::
      Ptr(s', i, loc) == Ptr(s, i, loc)
    ensures AllDense(g, s')
  {
    hide PathOf, At;
    forall i | i in s.nodes ensures Dense(g, s', i) {
      assert Dense(g, s, i);
      assert forall k: nat :: Lba(g, s', i, k) == Lba(g, s, i, k);
    }
  }

  lemma SameWorlds(g: Geometry, s: Store, s': Store)
    requires g.Ok() && s'.nodes == s.nodes && forall i :: i in s.nodes ==> Content(g, s', i) == Content(g, s, i)
    ensures WorldOf(g, s') == WorldOf(g, s) && (DirsOk(g, s) ==> DirsOk(g, s'))
  {
    hide Content;
    forall i | i in s.nodes ensures NodeOf(g, s', i) == NodeOf(g, s, i) {}
  }

  /** All of a sound volume that does not concern its objects. */
  lemma SameVolume(g: Geometry, s: Store, s': Store, bits: seq<bool>, owner: Owners)
    requires FsVolume.Shape(g, s, bits) && Linked(s, owner) && Bitmapped(g, bits, owner, {}) && AllDense(g, s)
    requires DirsOk(g, s)
    requires s'.nodes == s.nodes && |s'.disk| == |s.disk|
    requires (forall b :: 0 <= b < |s'.disk| ==> |s'.disk[b]| == g.blockBytes)
    requires forall b :: g.dataStart <= b < |s.disk| ==> s'.disk[b] == s.disk[b]
    ensures FsVolume.Shape(g, s', bits) && Linked(s', owner) && AllDense(g, s') && DirsOk(g, s')
    ensures WorldOf(g, s') == WorldOf(g, s)
  {
    SamePtrs(g, s, s', bits, owner);
    hide Ptr, AllDense, DirsOk, Bitmapped;
    SameDense(g, s, s');
    SameContents(g, s, s');
    SameWorlds(g, s, s');
  }

  /** The inodes a mount finds in the table. */
  function Loaded(disk: seq<Block>, bb: nat, table: nat, live: seq<bool>): (m: map<nat, Inode>)
    requires 0 < bb
    ensures forall i: nat :: i in m <==> i < |live| && live[i]
    ensures forall i :: i in m ==> m[i] == InodeOf(BodyOf(SlotImage(disk, bb, table, i))) && |m[i].ptrs| == DIRECT
  {
    map i: nat | i < |live| && live[i] :: InodeOf(BodyOf(SlotImage(disk, bb, table, i)))
  }

  /** The cache and the disk have inode `nd` under number `i`. */
  ghost predicate Stands(chains: Chains, disk: seq<Block>, bb: nat, table: nat, i: nat, nd: Inode)
    requires Chained(chains) && 0 < bb
  {
    nd == InodeOf(if Entry(chains, i).Some? then BodyIn(chains, i) else BodyOf(SlotImage(disk, bb, table, i)))
  }

  lemma JoinedAt(v: Volume, c: InodeCache, l: Places, i: nat)
    requires Joined(v, c, l) && i in v.nodes
    ensures Stands(c.chains, c.disk, c.bb, l.table, i, v.nodes[i])
  {
  }

  /** An inode comes back exactly if it survives. */
  lemma ComesBack(chains: Chains, disk: seq<Block>, disk': seq<Block>, bb: nat, table: nat, i: nat, nd: Inode)
    requires Chained(chains) && 0 < bb && SlotFlushed(chains, disk, disk', bb, table, i, true)
    requires Stands(chains, disk, bb, table, i, nd)
    ensures InodeOf(BodyOf(SlotImage(disk', bb, table, i))) == nd <==> Survives(chains, disk, bb, table, i)
  {
    hide InodeOf, BodyOf, SlotImage, Entry;
  }

  /** A mounted volume with its cache, as a mount makes them of what is on disk. */
  method Load(disk: seq<Block>, g: Geometry, l: Places, blockBytes: nat, inodeBytes: nat, ghost owner: Owners)
    returns (v: Volume, c: InodeCache)
    requires Blocks(disk, g.blockBytes) && Fit(l, g, blockBytes, inodeBytes) && g.dataStart <= |disk|
    requires 8 * inodeBytes < U32
    ensures fresh(v) && fresh(c) && Joined(v, c, l) && v.geo == g && v.disk == disk && v.owner == owner && v.loose == {}
    ensures Shows(v.blockMap, v.bits) && Shows(v.inodeMap, v.inodeBits)
    ensures v.nodes == Loaded(disk, g.blockBytes, l.table, v.inodeBits)
    ensures forall m: Bits :: Stored(disk, g.blockBytes, l.blocks, Pack(m)) && |m| == blockBytes ==> v.blockMap == m
    ensures forall m: Bits :: Stored(disk, g.blockBytes, l.inodes, Pack(m)) && |m| == inodeBytes ==> v.inodeMap == m
  {
    hide Stored, InodeOf, BodyOf, SlotImage, View, Pack, Test, BlocksOf;
    var blockMap, inodeMap;
    c, blockMap, inodeMap := Mount(disk, g, l, blockBytes, inodeBytes);
    v := new Volume(g, disk, blockMap, inodeMap);
    v.nodes := Loaded(disk, g.blockBytes, l.table, c.live);
    v.owner := owner;
  }

  lemma SameFs(v: Volume, v': Volume)
    requires FsOk(v) && v'.geo == v.geo && v'.bits == v.bits && v'.inodeBits == v.inodeBits && v'.nodes == v.nodes
    requires v'.owner == v.owner && v'.loose == {} && Shows(v'.blockMap, v'.bits) && Shows(v'.inodeMap, v'.inodeBits)
    requires |v'.disk| == |v.disk| && Blocks(v'.disk, v.geo.blockBytes)
    requires forall b :: v.geo.dataStart <= b < |v.disk| ==> v'.disk[b] == v.disk[b]
    ensures v.geo.Ok() && FsOk(v') && WorldOf(v'.geo, v'.St()) == WorldOf(v.geo, v.St())
  {
    hide Shows, Linked, Bitmapped, AllDense, DirsOk;
    SameVolume(v.geo, v.St(), v'.St(), v.bits, v.owner);
  }

  /** What an intact volume promises its bitmaps. */
  lemma Facts(v: Volume)
    requires FsOk(v)
    ensures v.geo.Ok() && v.geo.dataStart <= |v.disk| && |v.inodeBits| == 8 * |v.inodeMap| < U32
    ensures v.bits == View(v.blockMap) && v.inodeBits == View(v.inodeMap)
    ensures forall i: nat :: i in v.nodes <==> i < |v.inodeBits| && v.inodeBits[i]
  {
    ShowsView(v.inodeMap, v.inodeBits);
    ShowsView(v.blockMap, v.bits);
  }

  lemma ShownOnce(m: Bits, bits: seq<bool>)
    requires Shows(m, bits)
    ensures bits == View(m)
  {
    ShowsView(m, bits);
  }

  /** Unmounting and mounting again. Every inode comes back as it was exactly if it was not cached, was
      first in its chain and dirty, or was on disk already; if all do, the file system is the same. */
  method Remount(v: Volume, c: InodeCache, l: Places) returns (v': Volume, c': InodeCache)
    requires FsOk(v) && Joined(v, c, l) && Flushable(c.chains, c.live) && Fit(l, v.geo, |v.blockMap|, |v.inodeMap|)
    modifies c`chains, c`disk
    ensures fresh(v') && fresh(c') && Joined(v', c', l) && v'.geo == v.geo && v'.bits == v.bits
    ensures v'.inodeBits == v.inodeBits
    ensures v'.nodes.Keys == v.nodes.Keys
    ensures forall i :: i in v.nodes ==>
      (v'.nodes[i] == v.nodes[i] <==> Survives(old(c.chains), old(c.disk), c.bb, l.table, i))
    ensures v'.nodes == v.nodes ==> FsOk(v') && v.geo.Ok() && WorldOf(v'.geo, v'.St()) == WorldOf(v.geo, v.St())
  {
    hide FsOk, Stored, SlotFlushed, InodeOf, BodyOf, SlotImage, View, Pack, Shows, WorldOf, Flushable, Survives,
      Stands, BlocksOf;
    ghost var chains, disk := c.chains, c.disk;
    Facts(v);
    forall i | i in v.nodes ensures Stands(chains, disk, c.bb, l.table, i, v.nodes[i]) { JoinedAt(v, c, l, i); }
    Unmount(c, v.geo, l, v.blockMap, v.inodeMap);
    v', c' := Load(c.disk, v.geo, l, |v.blockMap|, |v.inodeMap|, v.owner);
    ShownOnce(v'.blockMap, v'.bits);
    ShownOnce(v'.inodeMap, v'.inodeBits);
    forall i | i in v.nodes ensures v'.nodes[i] == v.nodes[i] <==> Survives(chains, disk, c.bb, l.table, i) {
      ComesBack(chains, disk, c.disk, c.bb, l.table, i, v.nodes[i]);
    }
    if v'.nodes == v.nodes { SameFs(v, v'); }
  }

  lemma BlocksIs(n: nat)
    ensures BlocksOf(n, 2048) == (n + 2047) / 2048
  {
    if n > 0 { SplitIs(n - 1, 2048); }
  }

  /** The layout that formatting computes keeps the regions apart. */
  lemma FormatFits(maxSectors: nat)
    ensures var f := FsFormat.LayoutOf(maxSectors);
      Fit(Places(f.blockBitmap, f.inodeBitmap, f.inodeTable), Geometry(2048, f.totalBlocks, f.dataStart),
        (f.totalBlocks + 7) / 8, (f.totalInodes + 7) / 8)
  {
    var f := FsFormat.LayoutOf(maxSectors);
    BlocksIs((f.totalBlocks + 7) / 8);
    BlocksIs((f.totalInodes + 7) / 8);
    BlocksIs(INODE * (8 * ((f.totalInodes + 7) / 8)));
  }
}
