/** The bootloader's FAT12 reader. */
module Fat {
  import opened Bytes

  const SECTOR := 512
  /** Table entries from here on end a cluster chain. */
  const END := 0xFF8

  type Entry = x: int | 0 <= x < 0x1000

  /** fat_next_cluster: a 16-bit little-endian word at 3/2 of the index, its low or high 12 bits. */
  function NextCluster(table: seq<byte>, c: nat): nat
    requires c * 3 / 2 + 1 < |table|
  {
    var i := c * 3 / 2;
    var w := table[i] as int + 256 * (table[i + 1] as int);
    if c % 2 == 0 then w % 0x1000 else w / 16
  }

  /** Two 12-bit entries in three bytes. */
  function PackPair(a: Entry, b: Entry): (r: seq<byte>)
    ensures |r| == 3
  {
    [a % 256, a / 256 + 16 * (b % 16), b / 16]
  }

  /** A table as the FAT12 format stores it. */
  function Pack(entries: seq<Entry>): (r: seq<byte>)
    ensures |r| == (|entries| + 1) / 2 * 3
  {
    if entries == [] then []
    else if |entries| == 1 then PackPair(entries[0], 0)
    else PackPair(entries[0], entries[1]) + Pack(entries[2..])
  }

  lemma PairUnpacks(a: Entry, b: Entry, rest: seq<byte>)
    ensures NextCluster(PackPair(a, b) + rest, 0) == a && NextCluster(PackPair(a, b) + rest, 1) == b
  {
    var t := PackPair(a, b) + rest;
    assert t[0] == a % 256 && t[1] == a / 256 + 16 * (b % 16) && t[2] == b / 16;
  }

  lemma SkipPair(a: Entry, b: Entry, rest: seq<byte>, c: nat)
    requires c * 3 / 2 + 1 < |rest|
    ensures NextCluster(PackPair(a, b) + rest, c + 2) == NextCluster(rest, c)
  {
    var t := PackPair(a, b) + rest;
    assert (c + 2) * 3 / 2 == c * 3 / 2 + 3;
    assert t[c * 3 / 2 + 3] == rest[c * 3 / 2] && t[c * 3 / 2 + 4] == rest[c * 3 / 2 + 1];
  }

  /** Reading an entry of a packed table gives the entry. */
  lemma {:induction false} Unpacks(entries: seq<Entry>, c: nat)
    requires c < |entries|
    ensures c * 3 / 2 + 1 < |Pack(entries)| && NextCluster(Pack(entries), c) == entries[c]
  {
    if |entries| == 1 {
      PairUnpacks(entries[0], 0, []);
      assert PackPair(entries[0], 0) + [] == Pack(entries);
    } else {
      if c < 2 {
        PairUnpacks(entries[0], entries[1], Pack(entries[2..]));
      } else {
        Unpacks(entries[2..], c - 2);
        SkipPair(entries[0], entries[1], Pack(entries[2..]), c - 2);
      }
    }
  }

  datatype Volume = Volume(disk: seq<seq<byte>>, table: seq<byte>, dataLba: nat, perCluster: nat) {
    /** fat_cluster_to_lba. */
    function Lba(c: nat): int {
      dataLba + (c - 2) * perCluster
    }

    /** The sectors of one cluster. */
    ghost function ClusterSectors(c: nat): (r: seq<int>)
      ensures |r| == perCluster && forall s :: 0 <= s < perCluster ==> r[s] == Lba(c) + s
    {
      seq(perCluster, s => Lba(c) + s)
    }

    ghost function Sectors(cs: seq<nat>): seq<int> {
      if cs == [] then [] else Sectors(cs[..|cs| - 1]) + ClusterSectors(cs[|cs| - 1])
    }

    /** `cs` is the whole chain that starts at its first cluster, and lies on the disk. */
    ghost predicate Chain(cs: seq<nat>) {
      && cs != [] && perCluster > 0
      && (forall k :: 0 <= k < |cs| ==> 2 <= cs[k] < END && cs[k] * 3 / 2 + 1 < |table|)
      && (forall k :: 0 <= k < |cs| - 1 ==> NextCluster(table, cs[k]) == cs[k + 1])
      && NextCluster(table, cs[|cs| - 1]) >= END
      && (forall s :: s in Sectors(cs) ==> 0 <= s < |disk| && |disk[s]| == SECTOR)
    }

    lemma SectorsPrefix(cs: seq<nat>, n: nat)
      requires n < |cs|
      ensures Sectors(cs[..n + 1]) == Sectors(cs[..n]) + ClusterSectors(cs[n])
    {
      assert cs[..n + 1][..n] == cs[..n];
    }

    lemma FirstSector(cs: seq<nat>)
      requires Chain(cs)
      ensures Sectors(cs[..0]) == [] && |Sectors(cs)| > 0 && Sectors(cs)[0] == Lba(cs[0]) && 0 <= Lba(cs[0]) < |disk|
      ensures |disk[Lba(cs[0])]| == SECTOR
    {
      SectorAt(cs, 0, 0);
      assert cs[..0] == [];
      assert Sectors(cs)[0] in Sectors(cs);
    }

    /** The next cluster of a chain, or its end. */
    lemma NextPart(cs: seq<nat>, n: nat)
      requires Chain(cs) && n < |cs|
      ensures |Sectors(cs[..n + 1])| == |Sectors(cs[..n])| + perCluster && cs[..|cs|] == cs && perCluster > 0
      ensures cs[n] * 3 / 2 + 1 < |table|
      ensures if n + 1 < |cs| then NextCluster(table, cs[n]) == cs[n + 1] < END else NextCluster(table, cs[n]) >= END
    {
      SectorsPrefix(cs, n);
      assert cs[..|cs|] == cs;
    }

    lemma Member(cs: seq<nat>, n: nat)
      requires Chain(cs) && n < |cs|
      ensures cs[n] < END && perCluster > 0
    {
      hide Sectors, NextCluster;
    }

    lemma {:induction false} SectorAt(cs: seq<nat>, n: nat, s: nat)
      requires n < |cs| && s < perCluster
      ensures |Sectors(cs[..n])| + s < |Sectors(cs)| && Sectors(cs)[|Sectors(cs[..n])| + s] == Lba(cs[n]) + s
      ensures n == |cs| - 1 ==> |Sectors(cs)| == |Sectors(cs[..n])| + perCluster
      decreases |cs|
    {
      if n < |cs| - 1 {
        var r := cs[..|cs| - 1];
        SectorAt(r, n, s);
        assert r[..n] == cs[..n];
      }
    }
  }

  /** The bytes of the sectors `ls`, one after the other. */
  ghost function ByteAt(v: Volume, ls: seq<int>, pos: nat): byte {
    var k := pos / SECTOR;
    if k < |ls| && 0 <= ls[k] < |v.disk| && pos % SECTOR < |v.disk[ls[k]]| then v.disk[ls[k]][pos % SECTOR] else 0
  }

  ghost function Slice(v: Volume, ls: seq<int>, pos: nat, n: nat): (r: seq<byte>)
    ensures |r| == n && forall i :: 0 <= i < n ==> r[i] == ByteAt(v, ls, pos + i)
  {
    seq<byte>(n, i requires 0 <= i < n => ByteAt(v, ls, pos + i))
  }

  /** The disk as one string of bytes. */
  ghost function Image(disk: seq<seq<byte>>): seq<byte> {
    if disk == [] then [] else Image(disk[..|disk| - 1]) + disk[|disk| - 1]
  }

  lemma {:induction false} ImageAt(disk: seq<seq<byte>>, k: nat)
    requires (forall s :: 0 <= s < |disk| ==> |disk[s]| == SECTOR) && k < |disk| * SECTOR
    ensures |Image(disk)| == |disk| * SECTOR && Image(disk)[k] == disk[k / SECTOR][k % SECTOR]
    decreases |disk|
  {
    var n := |disk| - 1;
    if k < n * SECTOR {
      ImageAt(disk[..n], k);
    } else if n > 0 {
      ImageAt(disk[..n], 0);
    }
  }

  /** The clusters 2, 3, .., k + 1. */
  ghost function FirstClusters(k: nat): (cs: seq<nat>)
    ensures |cs| == k && forall i :: 0 <= i < k ==> cs[i] == i + 2
  {
    seq(k, i => i + 2)
  }

  /** The clusters from number 2 on tile the data area, in order and without gaps. */
  lemma Tiles(v: Volume, n: nat)
    requires v.perCluster > 0
    ensures v.ClusterSectors(2 + n / v.perCluster)[n % v.perCluster] == v.dataLba + n
  {
    assert n == n / v.perCluster * v.perCluster + n % v.perCluster;
  }

  lemma {:induction false} TilesUpTo(v: Volume, k: nat)
    requires v.perCluster > 0
    ensures |v.Sectors(FirstClusters(k))| == k * v.perCluster
    ensures forall n :: 0 <= n < k * v.perCluster ==> v.Sectors(FirstClusters(k))[n] == v.dataLba + n
  {
    if k > 0 {
      TilesUpTo(v, k - 1);
      assert FirstClusters(k)[..k - 1] == FirstClusters(k - 1);
      var p := v.perCluster;
      assert k * p == (k - 1) * p + p;
      forall n | (k - 1) * p <= n < k * p ensures v.Sectors(FirstClusters(k))[n] == v.dataLba + n {
        assert v.Lba(k + 1) == v.dataLba + (k - 1) * p;
      }
    }
  }

  lemma StoredByte(v: Volume, k: nat, p: nat)
    requires v.perCluster > 0 && p < k * v.perCluster * SECTOR
    requires v.dataLba + k * v.perCluster <= |v.disk| && forall s :: 0 <= s < |v.disk| ==> |v.disk[s]| == SECTOR
    ensures v.dataLba * SECTOR + p < |Image(v.disk)|
    ensures ByteAt(v, v.Sectors(FirstClusters(k)), p) == Image(v.disk)[v.dataLba * SECTOR + p]
  {
    hide Image;
    var sectors := k * v.perCluster;
    assert p / SECTOR < sectors;
    TilesUpTo(v, k);
    ImageAt(v.disk, v.dataLba * SECTOR + p);
  }

  /** A file in the clusters from number 2 on is what the disk holds from the start of the data area. */
  lemma StoredInOrder(v: Volume, k: nat, pos: nat, n: nat)
    requires v.perCluster > 0 && 0 < n && pos + n <= k * v.perCluster * SECTOR
    requires v.dataLba + k * v.perCluster <= |v.disk| && forall s :: 0 <= s < |v.disk| ==> |v.disk[s]| == SECTOR
    ensures v.dataLba * SECTOR + pos + n <= |Image(v.disk)|
    ensures Slice(v, v.Sectors(FirstClusters(k)), pos, n) == Image(v.disk)[v.dataLba * SECTOR + pos..][..n]
  {
    hide Image, ByteAt, FirstClusters;
    StoredByte(v, k, pos + n - 1);
    var got, want := Slice(v, v.Sectors(FirstClusters(k)), pos, n), Image(v.disk)[v.dataLba * SECTOR + pos..][..n];
    forall i | 0 <= i < n ensures got[i] == want[i] { StoredByte(v, k, pos + i); }
  }

  lemma SliceConcat(v: Volume, ls: seq<int>, pos: nat, a: nat, b: nat)
    ensures Slice(v, ls, pos, a) + Slice(v, ls, pos + a, b) == Slice(v, ls, pos, a + b)
  {
    hide ByteAt;
  }

  /** One open file other than the root directory. */
  class File {
    const v: Volume
    const directory: bool
    var position: nat
    var size: nat
    var buffer: seq<byte>
    var cluster: nat
    var sector: nat
    /** The chain, and the index in it of the current cluster. */
    ghost const chain: seq<nat>
    ghost var at: nat

    /** The sectors of the file, and its length in bytes. */
    ghost function All(): seq<int> {
      v.Sectors(chain)
    }

    /** Where reading stops: a directory entry of size 0 leaves the length to the chain. */
    ghost function Limit(): nat
      reads this
    {
      var length := |All()| * SECTOR;
      if directory && size == 0 then length else if size < length then size else length
    }

    /** The file stands at sector `sector` of cluster `at`, the `k`-th sector of the file. */
    ghost predicate Stands(k: nat)
      reads this
    {
      && v.Chain(chain) && at < |chain| && sector < v.perCluster && cluster == chain[at]
        && k == |v.Sectors(chain[..at])| + sector
    }

    /** The buffer holds the `k`-th sector of the file. */
    ghost predicate Holds(k: nat)
      reads this
    {
      k < |All()| && 0 <= All()[k] < |v.disk| && buffer == v.disk[All()[k]] && |buffer| == SECTOR
    }

    /** The buffer, the cluster and the sector are in step with the position, or the chain is at
        its end. */
    ghost predicate InStep()
      reads this
    {
      if at < |chain| then Stands(position / SECTOR) && Holds(position / SECTOR)
      else v.Chain(chain) && at == |chain| && position == |All()| * SECTOR && size == position
    }

    ghost predicate Ok()
      reads this
    {
      InStep() && position <= Limit()
    }

    /** fat_open_entry of an entry whose chain is `chain`. */
    constructor (v: Volume, directory: bool, size: nat, ghost chain: seq<nat>, first: nat)
      requires v.Chain(chain) && first == chain[0]
      ensures this.v == v && this.directory == directory && this.size == size && this.chain == chain && position == 0
      ensures Ok()
    {
      this.v, this.directory, this.size, this.chain := v, directory, size, chain;
      position, cluster, sector, at := 0, first, 0, 0;
      v.FirstSector(chain);
      buffer := v.disk[v.Lba(first)];
    }

    /** The part of fat_read after the buffer was used up: the next sector, or the end. */
    method Advance() returns (stop: bool)
      requires position > 0 && position % SECTOR == 0 && Stands(position / SECTOR - 1)
      modifies this`size, this`buffer, this`cluster, this`sector, this`at
      ensures InStep() && (stop <==> at == |chain|) && size == if stop then position else old(size)
    {
      hide NextCluster, Volume.Lba, Volume.Sectors, Volume.Chain;
      Step();
      if cluster >= END {
        size := position;
        return true;
      }
      Load();
      return false;
    }

    /** The next sector of the cluster, or the first of the next cluster. */
    method Step()
      requires position > 0 && position % SECTOR == 0 && Stands(position / SECTOR - 1)
      modifies this`cluster, this`sector, this`at
      ensures if cluster >= END then v.Chain(chain) && at == |chain| && position == |All()| * SECTOR
        else Stands(position / SECTOR)
    {
      hide NextCluster, Volume.Lba, Volume.Sectors, Volume.Chain;
      v.NextPart(chain, at);
      sector := sector + 1;
      if sector >= v.perCluster {
        sector := 0;
        cluster := NextCluster(v.table, cluster);
        at := at + 1;
      } else {
        v.Member(chain, at);
      }
    }

    /** The current sector is read into the buffer. */
    method Load()
      requires Stands(position / SECTOR)
      modifies this`buffer
      ensures Holds(position / SECTOR)
    {
      hide NextCluster, Volume.Lba, Volume.Sectors;
      v.SectorAt(chain, at, sector);
      assert All()[position / SECTOR] in v.Sectors(chain);
      buffer := v.disk[v.Lba(cluster) + sector];
    }

    lemma Chained()
      requires InStep()
      ensures v.Chain(chain)
    {
      hide Volume.Chain;
    }

    /** One round of the loop of fat_read: what the buffer still holds, then the next sector. */
    method Piece(left: nat) returns (piece: seq<byte>, stop: bool)
      requires InStep() && at < |chain| && left > 0
      modifies this`position, this`size, this`buffer, this`cluster, this`sector, this`at
      ensures InStep() && (stop <==> at == |chain|) && size == if stop then position else old(size)
      ensures 0 < |piece| <= left && piece == Slice(v, All(), old(position), |piece|)
      ensures position == old(position) + |piece| <= |All()| * SECTOR
    {
      hide Volume.Chain, Volume.Sectors, Slice;
      var off := position % SECTOR;
      var rest := SECTOR - off;
      var take := Min(left, rest);
      piece := buffer[off..off + take];
      forall i | 0 <= i < take ensures piece[i] == ByteAt(v, All(), position + i) { InSector(position, i); }
      ghost var k := position / SECTOR;
      position := position + take;
      stop := false;
      if rest == take {
        assert position / SECTOR == k + 1;
        stop := Advance();
      } else {
        assert position / SECTOR == k;
      }
    }

    /** fat_read: exactly the next bytes of the chain's sectors, as many as asked for or as are left,
        with the state in step for the next call. */
    method Read(count: nat) returns (out: seq<byte>)
      requires Ok()
      modifies this`position, this`size, this`buffer, this`cluster, this`sector, this`at
      ensures Ok() && Limit() == old(Limit())
      ensures out == Slice(v, All(), old(position), Min(count, old(Limit() - position)))
      ensures position == old(position) + |out|
      ensures !directory ==> position <= old(size)
      ensures !directory && old(size) <= |All()| * SECTOR ==> |out| == Min(count, old(size) - old(position))
    {
      hide Volume.Chain, Volume.Sectors, Slice, Stands, Holds;
      ghost var start, limit, free := position, Limit(), directory && size == 0;
      assert |All()| > 0 by { assert v.Chain(chain) by { Chained(); } v.FirstSector(chain); }
      out := [];
      var left: nat := count;
      if !directory || size != 0 { left := Min(count, size - position); }
      ghost var want := left;
      while left > 0
        invariant InStep() && Limit() == limit && start <= position <= limit && position - start + left == want
        invariant out == Slice(v, All(), start, position - start)
        invariant if free then directory && size == 0 else !(directory && size == 0) && position + left <= size
        invariant at < |chain| || left == 0
      {
        var piece, stop := Piece(left);
        SliceConcat(v, All(), start, |out|, |piece|);
        out := out + piece;
        left := left - |piece|;
        if stop {
          assert position == |All()| * SECTOR == limit;
          break;
        }
      }
    }

    /** Any sequence of reads yields what one read of their total size would. */
    method ReadAll(counts: seq<nat>) returns (out: seq<byte>)
      requires Ok()
      modifies this`position, this`size, this`buffer, this`cluster, this`sector, this`at
      ensures Ok() && Limit() == old(Limit()) && position == old(position) + |out|
      ensures out == Slice(v, All(), old(position), Min(Total(counts), old(Limit() - position)))
    {
      hide Volume.Chain, Volume.Sectors, Slice, Stands, Holds, InStep;
      ghost var start, limit := position, Limit();
      out := [];
      var k := 0;
      while k < |counts|
        invariant 0 <= k <= |counts| && Ok() && Limit() == limit && position == start + |out|
        invariant out == Slice(v, All(), start, Min(Total(counts[..k]), limit - start))
      {
        var piece := Read(counts[k]);
        SliceConcat(v, All(), start, |out|, |piece|);
        assert counts[..k + 1][..k] == counts[..k];
        out := out + piece;
        k := k + 1;
      }
      assert counts[..k] == counts;
    }
  }

  function Total(counts: seq<nat>): nat {
    if counts == [] then 0 else Total(counts[..|counts| - 1]) + counts[|counts| - 1]
  }

  /** Bytes of one sector. */
  lemma InSector(pos: nat, i: nat)
    requires pos % SECTOR + i < SECTOR
    ensures (pos + i) / SECTOR == pos / SECTOR && (pos + i) % SECTOR == pos % SECTOR + i
  {
  }
}
