/** Formatting a volume. */
module FsFormat {
  import opened Common
  import opened Bytes
  import FsTable
  import opened Bitmap
  import opened FsNames
  import opened FsRecords
  import opened FsLayout
  import opened FsSpace
  import opened FsVolume
  import opened FsFile
  import opened FsInode
  import opened FsDir
  import opened FsTree

  const BLOCK_BYTES := 2048

  /** Blocks set aside for `n` units. The block size macro of the source expands without
      parentheses, so dividing by it divides by 512 and multiplies by 4. */
  function Reserved(n: nat): nat {
    (n + 512 * 4 - 1) / 512 * 4
  }

  datatype Layout = Layout(totalBlocks: nat, totalInodes: nat, blockBitmap: nat, inodeBitmap: nat, inodeTable: nat,
    dataStart: nat)

  function LayoutOf(maxSectors: nat): Layout {
    var total := maxSectors / 4;
    var inodes := total / 4;
    var inodeBitmap := 1 + Reserved(total);
    var inodeTable := inodeBitmap + Reserved(inodes);
    Layout(total, inodes, 1, inodeBitmap, inodeTable, inodeTable + Reserved(inodes * FsTable.INODE))
  }

  /** The four metadata regions follow each other and each holds what is stored in it; a data
      area is left exactly from 61 blocks on. */
  lemma LayoutHolds(maxSectors: nat)
    ensures var l := LayoutOf(maxSectors);
      && 0 < l.blockBitmap < l.inodeBitmap < l.inodeTable < l.dataStart
      && (l.totalBlocks + 7) / 8 <= (l.inodeBitmap - l.blockBitmap) * BLOCK_BYTES
      && (l.totalInodes + 7) / 8 <= (l.inodeTable - l.inodeBitmap) * BLOCK_BYTES
      && l.totalInodes * FsTable.INODE <= (l.dataStart - l.inodeTable) * BLOCK_BYTES
      && (l.dataStart <= l.totalBlocks <==> 61 <= l.totalBlocks)
  {
  }

  /** The block bitmap as formatted: metadata blocks used, everything after them free. */
  function FormatBits(total: nat, dataStart: nat): (bits: seq<bool>)
    ensures |bits| == (total + 7) / 8 * 8 && forall b :: 0 <= b < |bits| ==> bits[b] == (b < dataStart)
  {
    seq((total + 7) / 8 * 8, b => b < dataStart)
  }

  /** The padding bits of the last bitmap byte stay clear. Unless the block count is a multiple
      of eight they can be allocated: on a full volume the search returns a block past the end. */
  lemma PaddingBits(total: nat, dataStart: nat)
    requires dataStart <= total
    ensures var bits := FormatBits(total, dataStart);
      (forall b :: total <= b < |bits| ==> bits[b]) <==> total % 8 == 0
    ensures var full := FormatBits(total, total);
      FirstClear(full, dataStart) == if total % 8 == 0 then -1 else total
  {
    var bits, full := FormatBits(total, dataStart), FormatBits(total, total);
    if total % 8 != 0 {
      assert !bits[total] && !full[total];
    }
  }

  function Empty(n: nat): Bits {
    seq(n, _ => 0)
  }

  lemma EmptyView(n: nat)
    ensures View(Empty(n)) == seq(8 * n, _ => false)
  {
    var v := View(Empty(n));
    forall k | 0 <= k < |v| ensures !v[k] { EmptyBit(k % 8); }
  }

  lemma EmptyBit(k: nat)
    requires k < 8
    ensures !Bit(0, k)
  {
  }

  /** The loop that marks the metadata blocks. */
  method FormatMap(total: nat, dataStart: nat) returns (m: Bits)
    requires dataStart <= total
    ensures View(m) == FormatBits(total, dataStart)
  {
    hide View, Set;
    m := Empty((total + 7) / 8);
    EmptyView((total + 7) / 8);
    var i := 0;
    while i < dataStart
      invariant 0 <= i <= dataStart && |View(m)| == 8 * |m| && View(m) == FormatBits(total, i)
    {
      SetView(m, i);
      m := Set(m, i);
      i := i + 1;
    }
  }

  /** A formatted volume before the root directory is made. */
  method Blank(dev: seq<Block>, geo: Geometry, totalInodes: nat) returns (v: Volume)
    requires geo.Ok() && geo.totalBlocks % 8 == 0 && totalInodes + 8 <= U32
    requires |dev| == geo.totalBlocks && forall b :: 0 <= b < |dev| ==> |dev[b]| == geo.blockBytes
    ensures fresh(v) && v.geo == geo && FsOk(v) && v.nodes == map[]
    ensures v.bits == FormatBits(geo.totalBlocks, geo.dataStart)
    ensures |v.inodeBits| == (totalInodes + 7) / 8 * 8 && forall i :: 0 <= i < |v.inodeBits| ==> !v.inodeBits[i]
  {
    var n := (totalInodes + 7) / 8 * 8;
    PaddingBits(geo.totalBlocks, geo.dataStart);
    var blockMap := FormatMap(geo.totalBlocks, geo.dataStart);
    EmptyView(n / 8);
    v := new Volume(geo, dev, blockMap, Empty(n / 8));
    assert forall i: nat, l: Loc :: Ptr(v.St(), i, l) == 0;
  }

  /** myfs_format: a volume whose only inode is the root directory, listing itself twice. */
  method Format(dev: seq<Block>, maxSectors: nat) returns (v: Volume, ok: bool)
    requires maxSectors < U32 && LayoutOf(maxSectors).totalInodes * FsTable.INODE + BLOCK_BYTES <= U32
    requires LayoutOf(maxSectors).totalBlocks >= 61 && LayoutOf(maxSectors).totalBlocks % 8 == 0
    requires |dev| == LayoutOf(maxSectors).totalBlocks && forall b :: 0 <= b < |dev| ==> |dev[b]| == BLOCK_BYTES
    ensures fresh(v) && FsOk(v)
    ensures ok && v.nodes.Keys == {0} && v.nodes[0].kind == Directory
    ensures Listing(v.geo, v.St(), 0) == map[DOT := 0, DOTDOT := 0]
  {
    var l := LayoutOf(maxSectors);
    LayoutHolds(maxSectors);
    SpaceLeft(maxSectors);
    v := Blank(dev, Geometry(BLOCK_BYTES, l.totalBlocks, l.dataStart), l.totalInodes);
    assert l.dataStart in Free(v.geo, v.bits);
    ok := MakeRoot(v);
  }

  /** With whole bitmap bytes the data area is not empty. */
  lemma SpaceLeft(maxSectors: nat)
    requires LayoutOf(maxSectors).totalBlocks >= 61 && LayoutOf(maxSectors).totalBlocks % 8 == 0
    ensures LayoutOf(maxSectors).dataStart < LayoutOf(maxSectors).totalBlocks && LayoutOf(maxSectors).totalInodes > 0
  {
  }

  /** Creates the root directory of an empty volume. */
  method MakeRoot(v: Volume) returns (ok: bool)
    requires FsOk(v) && v.nodes == map[]
    modifies v
    ensures FsOk(v)
    ensures ok ==> v.nodes.Keys == {0} && v.nodes[0].kind == Directory
    ensures ok ==> Listing(v.geo, v.St(), 0) == map[DOT := 0, DOTDOT := 0]
    ensures !ok ==> v.nodes == map[]
    ensures ok <==> old(FreeBlocks(v)) > 0 && old(|v.inodeBits|) > 0
  {
    assert 0 !in v.nodes;
    var root := InodeAlloc(v, Directory);
    if root < 0 { return false; }
    assert root == 0;
    EmptyRoot(v);
    AddDots(v, 0, 0);
    return true;
  }

  lemma EmptyRoot(v: Volume)
    requires Mounted(v) && v.nodes.Keys == {0} && Content(v.geo, v.St(), 0) == []
    ensures FsOk(v)
  {
  }
}
