/** The inode table on disk: 112-byte slots packed without regard to block boundaries, read and
    written by a loop that crosses them. */
module FsTable {
  import opened Bytes

  const INODE := 112

  /** Byte `p` of the table that begins at block `start`. */
  function TableByte(disk: seq<Block>, bb: nat, start: nat, p: nat): byte
    requires 0 < bb
  {
    var (q, r) := Split(p, bb);
    if start + q < |disk| && r < |disk[start + q]| then disk[start + q][r] else 0
  }

  ghost predicate Blocks(disk: seq<Block>, bb: nat) {
    0 < bb && forall b :: 0 <= b < |disk| ==> |disk[b]| == bb
  }

  /** Every table byte, except that `data[from..to]` was written at table position `base + from`. */
  ghost predicate TablePatched(disk: seq<Block>, disk': seq<Block>, bb: nat, start: nat, base: nat, data: seq<byte>,
    from: nat, to: nat)
    requires 0 < bb && to <= |data| && data != []
  {
    && |disk'| == |disk| && Blocks(disk', bb)
    && (forall p: nat :: TableByte(disk', bb, start, p) ==
          if base + from <= p < base + to then data[p - base] else TableByte(disk, bb, start, p))
    && (forall b :: 0 <= b < start && b < |disk| ==> disk'[b] == disk[b])
    && (forall b :: start + Split(base + |data| - 1, bb).0 < b < |disk| ==> disk'[b] == disk[b])
  }

  lemma TablePatchedTrans(d: seq<Block>, d1: seq<Block>, d2: seq<Block>, bb: nat, start: nat, base: nat,
    data: seq<byte>, mid: nat, to: nat)
    requires 0 < bb && mid <= to <= |data| && data != []
    requires TablePatched(d, d1, bb, start, base, data, 0, mid) && TablePatched(d1, d2, bb, start, base, data, mid, to)
    ensures TablePatched(d, d2, bb, start, base, data, 0, to)
  {
  }

  lemma PatchTable(disk: seq<Block>, bb: nat, start: nat, base: nat, data: seq<byte>, from: nat, to: nat,
    disk': seq<Block>)
    requires Blocks(disk, bb) && from < to <= |data|
    requires var (q, r) := Split(base + from, bb);
      && r + (to - from) <= bb && start + q < |disk|
      && disk' == disk[start + q := Splice(disk[start + q], r, data[from..to])]
    ensures TablePatched(disk, disk', bb, start, base, data, from, to)
  {
    var (q, r) := Split(base + from, bb);
    SplitMono(base + from, base + |data| - 1, bb);
    forall p: nat
      ensures TableByte(disk', bb, start, p) ==
                if base + from <= p < base + to then data[p - base] else TableByte(disk, bb, start, p)
    {
      PatchTableByte(disk, bb, start, base, data, from, to, disk', p);
    }
  }

  lemma PatchTableByte(disk: seq<Block>, bb: nat, start: nat, base: nat, data: seq<byte>, from: nat, to: nat,
    disk': seq<Block>, p: nat)
    requires Blocks(disk, bb) && from < to <= |data|
    requires var (q, r) := Split(base + from, bb);
      && r + (to - from) <= bb && start + q < |disk|
      && disk' == disk[start + q := Splice(disk[start + q], r, data[from..to])]
    ensures TableByte(disk', bb, start, p) ==
              if base + from <= p < base + to then data[p - base] else TableByte(disk, bb, start, p)
  {
    var o := base + from;
    if Split(p, bb).0 == Split(o, bb).0 {
      SplitMono(Min(o, p), if o < p then p else o, bb);
    } else if o <= p < base + to {
      SplitWithin(o, p - o, bb);
    }
  }

  /** Stepping from one chunk to the next: the next block at offset 0. */
  lemma NextChunk(p: nat, n: nat, left: nat, bb: nat)
    requires 0 < bb && n == Min(bb - Split(p, bb).1, left) && n < left
    ensures Split(p + n, bb) == (Split(p, bb).0 + 1, 0)
  {
    SplitNext(p, bb);
  }

  /** One round of the spanning write. */
  method WriteOne(disk: seq<Block>, bb: nat, block: nat, offset: nat, data: seq<byte>, done: nat, ghost start: nat,
    ghost base: nat)
    returns (disk': seq<Block>, to: nat)
    requires Blocks(disk, bb) && done < |data| && start + Split(base + |data| - 1, bb).0 < |disk|
    requires start <= block && (block - start, offset) == Split(base + done, bb)
    ensures done < to <= |data| && TablePatched(disk, disk', bb, start, base, data, done, to)
    ensures to < |data| ==> (block + 1 - start, 0) == Split(base + to, bb)
  {
    var n := Min(bb - offset, |data| - done);
    to := done + n;
    SplitMono(base + done, base + |data| - 1, bb);
    if to < |data| { NextChunk(base + done, n, |data| - done, bb); }
    var piece := data[done..to];
    var blk := if offset != 0 || |data| - done < bb then Splice(disk[block], offset, piece) else piece;
    assert blk == Splice(disk[block], offset, piece);
    disk' := disk[block := blk];
    PatchTable(disk, bb, start, base, data, done, to, disk');
  }

  /** disk_rw_spanning, writing: read-modify-write of each partially covered block. */
  method WriteSpanning(disk: seq<Block>, bb: nat, start: nat, base: nat, data: seq<byte>) returns (disk': seq<Block>)
    requires Blocks(disk, bb) && data != [] && start + Split(base + |data| - 1, bb).0 < |disk|
    ensures TablePatched(disk, disk', bb, start, base, data, 0, |data|)
  {
    disk' := disk;
    var q, offset := Locate(base, bb);
    var block := start + q;
    var done := 0;
    while done < |data|
      invariant 0 <= done <= |data|
      invariant done < |data| ==> start <= block && (block - start, offset) == Split(base + done, bb)
      invariant TablePatched(disk, disk', bb, start, base, data, 0, done)
    {
      ghost var before := disk';
      var to;
      disk', to := WriteOne(disk', bb, block, offset, data, done, start, base);
      TablePatchedTrans(disk, before, disk', bb, start, base, data, done, to);
      done, block, offset := to, block + 1, 0;
    }
  }

  function TableBytes(disk: seq<Block>, bb: nat, start: nat, base: nat, n: nat): (r: seq<byte>)
    requires 0 < bb
    ensures |r| == n
  {
    seq<byte>(n, k requires 0 <= k < n => TableByte(disk, bb, start, base + k))
  }

  /** One round of the spanning read. */
  method ReadOne(disk: seq<Block>, bb: nat, block: nat, offset: nat, done: nat, size: nat, ghost start: nat,
    ghost base: nat)
    returns (piece: seq<byte>)
    requires Blocks(disk, bb) && done < size && start + Split(base + size - 1, bb).0 < |disk|
    requires start <= block && (block - start, offset) == Split(base + done, bb)
    ensures 0 < |piece| <= size - done && piece == TableBytes(disk, bb, start, base + done, |piece|)
    ensures done + |piece| < size ==> (block + 1 - start, 0) == Split(base + done + |piece|, bb)
  {
    var n := Min(bb - offset, size - done);
    SplitMono(base + done, base + size - 1, bb);
    if done + n < size { NextChunk(base + done, n, size - done, bb); }
    ReadPiece(disk, bb, start, base + done, n);
    piece := disk[block][offset..offset + n];
  }

  /** disk_rw_spanning, reading. */
  method ReadSpanning(disk: seq<Block>, bb: nat, start: nat, base: nat, size: nat) returns (data: seq<byte>)
    requires Blocks(disk, bb) && 0 < size && start + Split(base + size - 1, bb).0 < |disk|
    ensures data == TableBytes(disk, bb, start, base, size)
  {
    data := [];
    var q, offset := Locate(base, bb);
    var block := start + q;
    while |data| < size
      invariant |data| <= size
      invariant |data| < size ==> start <= block && (block - start, offset) == Split(base + |data|, bb)
      invariant data == TableBytes(disk, bb, start, base, |data|)
      decreases size - |data|
    {
      var piece := ReadOne(disk, bb, block, offset, |data|, size, start, base);
      data := data + piece;
      assert data == TableBytes(disk, bb, start, base, |data|);
      block, offset := block + 1, 0;
    }
  }

  lemma ReadPiece(disk: seq<Block>, bb: nat, start: nat, p: nat, n: nat)
    requires Blocks(disk, bb) && Split(p, bb).1 + n <= bb && start + Split(p, bb).0 < |disk|
    ensures var (q, r) := Split(p, bb); disk[start + q][r..r + n] == TableBytes(disk, bb, start, p, n)
  {
    var (q, r) := Split(p, bb);
    var piece, bytes := disk[start + q][r..r + n], TableBytes(disk, bb, start, p, n);
    forall k | 0 <= k < n ensures piece[k] == bytes[k] { SplitWithin(p, k, bb); }
  }
}
