/** The reference-counted write-back inode cache: 256 hash chains in front of the inode table. */
module FsCache {
  import opened Common
  import opened Bytes
  import opened FsTable

  const BUCKETS := 256
  const BODY := 100

  /** An inode as held in memory. `body` is everything but the inode number, the reference
      count and the dirty flag. */
  datatype Cached = Cached(ino: u32, body: seq<byte>, refs: u32, dirty: bool)

  /** The 112 bytes written to the inode's slot: the structure as it is, flags included. */
  function Image(c: Cached): (r: seq<byte>)
    requires |c.body| == BODY
    ensures |r| == INODE
  {
    WordBytes(c.ino) + c.body[..60] + WordBytes(c.refs) + c.body[60..] + WordBytes(if c.dirty then 1 else 0)
  }

  function BodyOf(image: seq<byte>): (r: seq<byte>)
    requires |image| == INODE
    ensures |r| == BODY
  {
    image[4..64] + image[68..108]
  }

  lemma ImageParts(c: Cached)
    requires |c.body| == BODY
    ensures BodyOf(Image(c)) == c.body && Word(Image(c), 0) == c.ino && Word(Image(c), 64) == c.refs
    ensures Word(Image(c), 108) == if c.dirty then 1 else 0
  {
    var w, r, d := WordBytes(c.ino), WordBytes(c.refs), WordBytes(if c.dirty then 1 else 0);
    assert Image(c)[..4] == w && Image(c)[64..68] == r && Image(c)[108..] == d;
    assert Word(Image(c), 0) == Word(w, 0) && Word(Image(c), 64) == Word(r, 0) && Word(Image(c), 108) == Word(d, 0);
    assert BodyOf(Image(c)) == c.body[..60] + c.body[60..];
  }

  type Chains = seq<seq<Cached>>

  function FindIn(chain: seq<Cached>, ino: nat): (i: int)
    ensures -1 <= i < |chain|
    ensures i >= 0 ==> chain[i].ino == ino && forall k :: 0 <= k < i ==> chain[k].ino != ino
    ensures i == -1 ==> forall k :: 0 <= k < |chain| ==> chain[k].ino != ino
  {
    if chain == [] then -1
    else if chain[0].ino == ino then 0
    else
      var i := FindIn(chain[1..], ino);
      if i == -1 then -1 else i + 1
  }

  ghost predicate ChainOk(chain: seq<Cached>, h: nat) {
    && (forall k :: 0 <= k < |chain| ==> chain[k].ino % BUCKETS == h && |chain[k].body| == BODY)
    && (forall j, k :: 0 <= j < k < |chain| ==> chain[j].ino != chain[k].ino)
  }

  ghost predicate Chained(chains: Chains) {
    |chains| == BUCKETS && forall h :: 0 <= h < BUCKETS ==> ChainOk(chains[h], h)
  }

  function InChain(chain: seq<Cached>, ino: nat): Option<Cached> {
    var i := FindIn(chain, ino);
    if i < 0 then None else Some(chain[i])
  }

  /** The cache entry of an inode. */
  function Entry(chains: Chains, ino: nat): Option<Cached>
    requires |chains| == BUCKETS
  {
    InChain(chains[ino % BUCKETS], ino)
  }

  lemma InChainIs(chain: seq<Cached>, h: nat, k: nat)
    requires ChainOk(chain, h) && k < |chain|
    ensures InChain(chain, chain[k].ino) == Some(chain[k])
  {
  }

  /** Changing one chain: all other inodes keep their entries. */
  lemma ChainChanged(chains: Chains, h: nat, chain: seq<Cached>)
    requires Chained(chains) && h < BUCKETS && ChainOk(chain, h)
    ensures var chains' := chains[h := chain];
      && Chained(chains')
      && forall j: nat :: Entry(chains', j) == if j % BUCKETS == h then InChain(chain, j) else Entry(chains, j)
  {
  }

  /** myfs_inode_cache_add: a new entry at the head of its chain. */
  lemma Pushed(chain: seq<Cached>, h: nat, c: Cached)
    requires ChainOk(chain, h) && c.ino % BUCKETS == h && |c.body| == BODY && InChain(chain, c.ino) == None
    ensures ChainOk([c] + chain, h)
    ensures forall j: nat :: InChain([c] + chain, j) == if j == c.ino then Some(c) else InChain(chain, j)
  {
    var all := [c] + chain;
    assert all[1..] == chain;
    assert forall k :: 0 < k < |all| ==> all[k] == chain[k - 1];
  }

  /** An entry changed in place. */
  lemma Updated(chain: seq<Cached>, h: nat, i: nat, c: Cached)
    requires ChainOk(chain, h) && i < |chain| && c.ino == chain[i].ino && |c.body| == BODY
    ensures ChainOk(chain[i := c], h)
    ensures forall j: nat :: InChain(chain[i := c], j) == if j == c.ino then Some(c) else InChain(chain, j)
  {
    var all := chain[i := c];
    forall j: nat ensures InChain(all, j) == if j == c.ino then Some(c) else InChain(chain, j) {
      var f := FindIn(chain, j);
      if f >= 0 {
        assert all[f].ino == j;
        InChainIs(all, h, f);
      }
    }
  }

  /** myfs_inode_cache_remove: the entry is unlinked, the order of the others stays. */
  lemma Unlinked(chain: seq<Cached>, h: nat, i: nat)
    requires ChainOk(chain, h) && i < |chain|
    ensures var rest := chain[..i] + chain[i + 1..];
      && ChainOk(rest, h)
      && forall j: nat :: InChain(rest, j) == if j == chain[i].ino then None else InChain(chain, j)
  {
    var rest := chain[..i] + chain[i + 1..];
    UnlinkedOk(chain, h, i, rest);
    forall j: nat ensures InChain(rest, j) == if j == chain[i].ino then None else InChain(chain, j) {
      UnlinkedAt(chain, h, i, rest, j);
    }
  }

  lemma UnlinkedOk(chain: seq<Cached>, h: nat, i: nat, rest: seq<Cached>)
    requires ChainOk(chain, h) && i < |chain| && rest == chain[..i] + chain[i + 1..]
    ensures ChainOk(rest, h)
  {
    forall k | 0 <= k < |rest| ensures rest[k] == chain[if k < i then k else k + 1] {}
  }

  lemma UnlinkedAt(chain: seq<Cached>, h: nat, i: nat, rest: seq<Cached>, j: nat)
    requires ChainOk(chain, h) && ChainOk(rest, h) && i < |chain| && rest == chain[..i] + chain[i + 1..]
    ensures InChain(rest, j) == if j == chain[i].ino then None else InChain(chain, j)
  {
    var f, g := FindIn(chain, j), FindIn(rest, j);
    if f >= 0 && f != i {
      var k := if f < i then f else f - 1;
      assert rest[k] == chain[f];
      InChainIs(rest, h, k);
    }
    if g >= 0 { assert rest[g] == chain[if g < i then g else g + 1]; }
  }

  function SlotImage(disk: seq<Block>, bb: nat, start: nat, ino: nat): (r: seq<byte>)
    requires 0 < bb
    ensures |r| == INODE
  {
    TableBytes(disk, bb, start, INODE * ino, INODE)
  }

  /** Writing one slot leaves every other slot byte-identical. */
  lemma SlotWritten(disk: seq<Block>, disk': seq<Block>, bb: nat, start: nat, ino: nat, data: seq<byte>)
    requires 0 < bb && |data| == INODE && TablePatched(disk, disk', bb, start, INODE * ino, data, 0, INODE)
    ensures forall j: nat :: SlotImage(disk', bb, start, j) == if j == ino then data else SlotImage(disk, bb, start, j)
  {
    forall j: nat ensures SlotImage(disk', bb, start, j) == if j == ino then data else SlotImage(disk, bb, start, j) {
      SlotWrittenAt(disk, disk', bb, start, ino, data, j);
    }
  }

  lemma SlotWrittenAt(disk: seq<Block>, disk': seq<Block>, bb: nat, start: nat, ino: nat, data: seq<byte>, j: nat)
    requires 0 < bb && |data| == INODE && TablePatched(disk, disk', bb, start, INODE * ino, data, 0, INODE)
    ensures SlotImage(disk', bb, start, j) == if j == ino then data else SlotImage(disk, bb, start, j)
  {
    hide TableByte;
    var a, b := SlotImage(disk', bb, start, j), if j == ino then data else SlotImage(disk, bb, start, j);
    forall k | 0 <= k < INODE ensures a[k] == b[k] {
      var p := INODE * j + k;
      assert INODE * ino <= p < INODE * ino + INODE <==> j == ino;
      assert a[k] == TableByte(disk', bb, start, p);
    }
  }

  /** Only blocks of the inode table, which has `n` slots, differ. */
  ghost predicate TableOnly(disk: seq<Block>, disk': seq<Block>, bb: nat, start: nat, n: nat)
    requires 0 < bb
  {
    && |disk'| == |disk|
    && (forall b :: 0 <= b < |disk| && !(n > 0 && start <= b <= start + Split(INODE * n - 1, bb).0) ==>
      disk'[b] == disk[b])
  }

  lemma PatchedTable(disk: seq<Block>, disk': seq<Block>, bb: nat, start: nat, ino: nat, n: nat, data: seq<byte>)
    requires 0 < bb && |data| == INODE && ino < n && TablePatched(disk, disk', bb, start, INODE * ino, data, 0, INODE)
    ensures TableOnly(disk, disk', bb, start, n)
  {
    hide TableByte;
    SplitMono(INODE * ino + INODE - 1, INODE * n - 1, bb);
  }

  lemma TableOnlyTrans(d: seq<Block>, d1: seq<Block>, d2: seq<Block>, bb: nat, start: nat, n: nat)
    requires 0 < bb && TableOnly(d, d1, bb, start, n) && TableOnly(d1, d2, bb, start, n)
    ensures TableOnly(d, d2, bb, start, n)
  {
  }

  lemma TableOnlyRefl(d: seq<Block>, bb: nat, start: nat, n: nat)
    requires 0 < bb
    ensures TableOnly(d, d, bb, start, n)
  {
  }

  /** All entries but that of one inode are the same. */
  ghost predicate SameBut(chains: Chains, chains': Chains, ino: nat, e: Option<Cached>) {
    && |chains| == |chains'| == BUCKETS
    && (forall h :: 0 <= h < BUCKETS && h != ino % BUCKETS ==> chains'[h] == chains[h])
    && forall j: nat :: Entry(chains', j) == if j == ino then e else Entry(chains, j)
  }

  /** An inode with this value and this many holders: cached with that reference count, and
      equal to its slot unless dirty; or not cached, with the value in its own slot. */
  ghost predicate Holds(e: Option<Cached>, image: seq<byte>, ino: nat, value: seq<byte>, held: nat)
    requires |image| == INODE
  {
    match e
    case Some(c) =>
      && c.body == value && c.refs == held >= 1
      && (!c.dirty ==> Word(image, 0) == ino && BodyOf(image) == value)
    case None => held == 0 && Word(image, 0) == ino && BodyOf(image) == value
  }

  ghost predicate HoldsIn(chains: Chains, disk: seq<Block>, bb: nat, start: nat, p: Plain, ino: nat)
    requires |chains| == BUCKETS && 0 < bb
  {
    && ino in p.value && ino in p.held
    && Holds(Entry(chains, ino), SlotImage(disk, bb, start, ino), ino, p.value[ino], p.held[ino])
  }

  ghost predicate AllHold(chains: Chains, disk: seq<Block>, bb: nat, start: nat, p: Plain)
    requires |chains| == BUCKETS && 0 < bb
  {
    forall ino: nat :: ino in p.value ==> HoldsIn(chains, disk, bb, start, p, ino)
  }

  /** A step that touches one inode only has to be right for that inode. */
  lemma StepHolds(chains: Chains, disk: seq<Block>, chains': Chains, disk': seq<Block>, bb: nat, start: nat,
    p: Plain, p': Plain, ino: nat)
    requires 0 < bb && SameBut(chains, chains', ino, if |chains'| == BUCKETS then Entry(chains', ino) else None)
    requires AllHold(chains, disk, bb, start, p)
    requires forall j: nat :: j != ino ==> SlotImage(disk', bb, start, j) == SlotImage(disk, bb, start, j)
    requires p'.value.Keys == p.value.Keys && p'.held.Keys == p.held.Keys
    requires forall j: nat :: j != ino && j in p.value && j in p.held ==>
      p'.value[j] == p.value[j] && p'.held[j] == p.held[j]
    requires HoldsIn(chains', disk', bb, start, p', ino)
    ensures AllHold(chains', disk', bb, start, p')
  {
    forall j: nat | j in p'.value ensures HoldsIn(chains', disk', bb, start, p', j) {
      assert HoldsIn(chains, disk, bb, start, p, j);
    }
  }

  datatype Op = Get(ino: nat) | Put(ino: nat) | Set(ino: nat, body: seq<byte>)

  /** A plain map of inodes, with the number of references held on each. */
  datatype Plain = Plain(value: map<nat, seq<byte>>, held: map<nat, nat>)

  ghost predicate Legal(p: Plain, op: Op) {
    && op.ino in p.value && op.ino in p.held
    && match op
       case Get(ino) => p.held[ino] < U32 - 1
       case Put(ino) => p.held[ino] >= 1
       case Set(ino, body) => p.held[ino] >= 1 && |body| == BODY
  }

  ghost function Apply(p: Plain, op: Op): Plain
    requires Legal(p, op)
  {
    match op
    case Get(ino) => p.(held := p.held[ino := p.held[ino] + 1])
    case Put(ino) => p.(held := p.held[ino := p.held[ino] - 1])
    case Set(ino, body) => p.(value := p.value[ino := body])
  }

  ghost predicate AllLegal(p: Plain, ops: seq<Op>)
    decreases |ops|
  {
    ops == [] || (Legal(p, ops[0]) && AllLegal(Apply(p, ops[0]), ops[1..]))
  }

  ghost function ApplyAll(p: Plain, ops: seq<Op>): Plain
    requires AllLegal(p, ops)
    decreases |ops|
  {
    if ops == [] then p else ApplyAll(Apply(p, ops[0]), ops[1..])
  }

  ghost function Outputs(p: Plain, ops: seq<Op>): seq<seq<byte>>
    requires AllLegal(p, ops)
    decreases |ops|
  {
    if ops == [] then []
    else [if ops[0].Get? then p.value[ops[0].ino] else []] + Outputs(Apply(p, ops[0]), ops[1..])
  }

  class InodeCache {
    const bb: nat
    const start: nat
    var disk: seq<Block>
    var live: seq<bool>
    var chains: Chains

    constructor (bb: nat, start: nat, disk: seq<Block>, live: seq<bool>)
      requires Blocks(disk, bb) && |live| < U32 && (|live| > 0 ==> start + Split(INODE * |live| - 1, bb).0 < |disk|)
      ensures this.bb == bb && this.start == start && this.disk == disk && this.live == live
      ensures Ok() && forall ino: nat :: Entry(chains, ino) == None
    {
      this.bb, this.start, this.disk, this.live := bb, start, disk, live;
      chains := seq(BUCKETS, _ => []);
    }

    ghost predicate Ok()
      reads this
    {
      && Blocks(disk, bb) && Chained(chains)
      && (|live| > 0 ==> start + Split(INODE * |live| - 1, bb).0 < |disk|)
      && |live| < U32
      && forall j: nat :: Entry(chains, j).Some? ==> j < |live|
    }

    /** The value of an inode: its cached body, or the one in its slot. */
    ghost function Value(ino: nat): seq<byte>
      requires Ok()
      reads this
    {
      match Entry(chains, ino)
      case Some(c) => c.body
      case None => BodyOf(SlotImage(disk, bb, start, ino))
    }

    /** myfs_cache_find: walks one chain. */
    method CacheFind(ino: nat) returns (i: int)
      requires Ok()
      ensures i == FindIn(chains[ino % BUCKETS], ino)
    {
      var chain := chains[ino % BUCKETS];
      i := 0;
      while i < |chain|
        invariant 0 <= i <= |chain|
        invariant forall k :: 0 <= k < i ==> chain[k].ino != ino
      {
        if chain[i].ino == ino { return; }
        i := i + 1;
      }
      return -1;
    }

    /** A holder's change to the inode it has a reference to. */
    method Store(c: Cached)
      requires Ok() && Entry(chains, c.ino).Some? && |c.body| == BODY
      modifies this`chains
      ensures Ok() && SameBut(old(chains), chains, c.ino, Some(c))
    {
      var h := c.ino % BUCKETS;
      var i := CacheFind(c.ino);
      Updated(chains[h], h, i, c);
      ChainChanged(chains, h, chains[h][i := c]);
      chains := chains[h := chains[h][i := c]];
    }

    method CacheAdd(c: Cached)
      requires Ok() && Entry(chains, c.ino) == None && |c.body| == BODY && c.ino < |live|
      modifies this`chains
      ensures Ok() && SameBut(old(chains), chains, c.ino, Some(c))
    {
      var h := c.ino % BUCKETS;
      Pushed(chains[h], h, c);
      ChainChanged(chains, h, [c] + chains[h]);
      chains := chains[h := [c] + chains[h]];
    }

    /** myfs_inode_cache_remove; nothing happens if the inode is not cached. */
    method CacheRemove(ino: nat)
      requires Ok()
      modifies this`chains
      ensures Ok() && SameBut(old(chains), chains, ino, None)
    {
      var h := ino % BUCKETS;
      var i := CacheFind(ino);
      if i < 0 { return; }
      var rest := chains[h][..i] + chains[h][i + 1..];
      Unlinked(chains[h], h, i);
      ChainChanged(chains, h, rest);
      assert SameBut(chains, chains[h := rest], ino, None);
      chains := chains[h := rest];
    }

    lemma SlotInside(ino: nat)
      requires Ok() && ino < |live|
      ensures start + Split(INODE * ino + INODE - 1, bb).0 < |disk|
    {
      SplitMono(INODE * ino + INODE - 1, INODE * |live| - 1, bb);
    }

    /** Writes the image of a cached inode to its slot. */
    method WriteSlot(c: Cached)
      requires Ok() && c.ino < |live| && |c.body| == BODY
      modifies this`disk
      ensures Ok() && TableOnly(old(disk), disk, bb, start, |live|)
      ensures forall j: nat ::
        SlotImage(disk, bb, start, j) == if j == c.ino then Image(c) else old(SlotImage(disk, bb, start, j))
    {
      hide TableOnly;
      SlotInside(c.ino);
      var disk' := WriteSpanning(disk, bb, start, INODE * c.ino, Image(c));
      PatchedTable(disk, disk', bb, start, c.ino, |live|, Image(c));
      SlotWritten(disk, disk', bb, start, c.ino, Image(c));
      disk := disk';
    }

    /** myfs_iget. A miss loads the slot, with the dirty flag set. */
    method Iget(ino: nat) returns (ok: bool)
      requires Ok() && ino < |live|
      requires live[ino] && Entry(chains, ino) == None ==> Word(SlotImage(disk, bb, start, ino), 0) == ino
      requires Entry(chains, ino).Some? ==> Entry(chains, ino).value.refs < U32 - 1
      modifies this`chains
      ensures Ok() && ok == live[ino]
      ensures !ok ==> chains == old(chains)
      ensures ok ==> SameBut(old(chains), chains, ino, Entry(chains, ino)) && Entry(chains, ino).Some?
      ensures ok ==> match old(Entry(chains, ino))
        case Some(c) => Entry(chains, ino) == Some(c.(refs := c.refs + 1))
        case None => Entry(chains, ino) == Some(Cached(ino, BodyOf(SlotImage(disk, bb, start, ino)), 1, true))
      ensures forall j: nat :: Value(j) == old(Value(j))
    {
      if !live[ino] { return false; }
      var i := CacheFind(ino);
      if i >= 0 {
        var c := chains[ino % BUCKETS][i];
        Store(c.(refs := c.refs + 1));
        return true;
      }
      SlotInside(ino);
      var image := ReadSpanning(disk, bb, start, INODE * ino, INODE);
      CacheAdd(Cached(Word(image, 0), BodyOf(image), 1, true));
      return true;
    }

    /** What the slots hold after inode `ino` was perhaps written back with this body. */
    ghost predicate SlotsBut(before: seq<Block>, ino: nat, written: bool, body: seq<byte>)
      requires 0 < bb
      reads this
    {
      && TableOnly(before, disk, bb, start, |live|)
      && (forall j: nat :: j != ino || !written ==> SlotImage(disk, bb, start, j) == SlotImage(before, bb, start, j))
      && (written ==>
        Word(SlotImage(disk, bb, start, ino), 0) == ino && BodyOf(SlotImage(disk, bb, start, ino)) == body)
    }

    /** Decreases along the calls of iput and the write-back it starts. */
    ghost function Rank(ino: nat, put: bool): nat
      requires |chains| == BUCKETS
      reads this
    {
      var dirty := match Entry(chains, ino) case Some(c) => c.dirty case None => true;
      if put then (if dirty then 3 else 0) else (if dirty then 2 else 1)
    }

    /** myfs_iput. The last reference writes a dirty inode back and drops it from the cache. */
    method Iput(ino: nat)
      requires Ok() && ino < |live| && live[ino]
      requires Entry(chains, ino).Some? && Entry(chains, ino).value.refs >= 1
      modifies this`chains, this`disk
      decreases Rank(ino, true)
      ensures Ok()
      ensures var c := old(Entry(chains, ino)).value;
        && SameBut(old(chains), chains, ino, if c.refs > 1 then Some(c.(refs := c.refs - 1)) else None)
        && SlotsBut(old(disk), ino, c.refs == 1 && c.dirty, c.body)
        && (Value(ino) == old(Value(ino)) <==>
          c.refs > 1 || c.dirty || c.body == BodyOf(SlotImage(old(disk), bb, start, ino)))
      ensures forall j: nat :: j != ino ==> Value(j) == old(Value(j))
    {
      hide TableOnly;
      TableOnlyRefl(disk, bb, start, |live|);
      var i := CacheFind(ino);
      var c := chains[ino % BUCKETS][i];
      Store(c.(refs := c.refs - 1));
      if c.refs == 1 {
        if c.dirty { DiskInodeWrite(ino); }
        CacheRemove(ino);
      }
    }

    /** Writes a cached inode to its slot and marks it clean. */
    method WriteBack(c: Cached)
      requires Ok() && Entry(chains, c.ino) == Some(c) && |c.body| == BODY
      modifies this`chains, this`disk
      ensures Ok() && SameBut(old(chains), chains, c.ino, Some(c.(dirty := false)))
      ensures SlotsBut(old(disk), c.ino, true, c.body)
    {
      WriteSlot(c);
      ImageParts(c);
      Store(c.(dirty := false));
    }

    /** myfs_disk_inode_write of a live inode. */
    method DiskInodeWrite(ino: nat)
      requires Ok() && ino < |live| && live[ino]
      requires Entry(chains, ino) == None ==> Word(SlotImage(disk, bb, start, ino), 0) == ino
      requires Entry(chains, ino).Some? ==> Entry(chains, ino).value.refs < U32 - 1
      modifies this`chains, this`disk
      decreases Rank(ino, false)
      ensures Ok()
      ensures match old(Entry(chains, ino))
        case Some(c) =>
          && SameBut(old(chains), chains, ino, if c.refs > 0 then Some(c.(dirty := false)) else None)
          && SlotsBut(old(disk), ino, c.dirty, c.body)
        case None =>
          && SameBut(old(chains), chains, ino, None)
          && SlotsBut(old(disk), ino, true, BodyOf(SlotImage(old(disk), bb, start, ino)))
    {
      hide TableOnly;
      var _ := Iget(ino);
      var i := CacheFind(ino);
      var c := chains[ino % BUCKETS][i];
      if !c.dirty {
        Iput(ino);
        return;
      }
      WriteBack(c);
      ghost var disk1 := disk;
      Iput(ino);
      TableOnlyTrans(old(disk), disk1, disk, bb, start, |live|);
    }

    /** The cache and the disk together behave as the plain map `p`. */
    ghost predicate Refines(p: Plain)
      reads this
    {
      && Ok()
      && (forall ino: nat :: ino in p.value <==> ino < |live| && live[ino])
      && AllHold(chains, disk, bb, start, p)
    }

    /** One step of a holder; a Get returns what it finds. */
    method Exec(op: Op, ghost p: Plain) returns (out: seq<byte>)
      requires Refines(p) && Legal(p, op)
      modifies this`chains, this`disk
      ensures Refines(Apply(p, op))
      ensures out == if op.Get? then p.value[op.ino] else []
    {
      match op
      case Get(ino) => out := ExecGet(ino, p);
      case Put(ino) => out := []; ExecPut(ino, p);
      case Set(ino, body) => out := []; ExecSet(ino, body, p);
    }

    method ExecGet(ino: nat, ghost p: Plain) returns (out: seq<byte>)
      requires Refines(p) && Legal(p, Get(ino))
      modifies this`chains
      ensures Refines(Apply(p, Get(ino)))
      ensures out == p.value[ino]
    {
      assert HoldsIn(chains, disk, bb, start, p, ino);
      var _ := Iget(ino);
      var i := CacheFind(ino);
      out := chains[ino % BUCKETS][i].body;
      StepHolds(old(chains), old(disk), chains, disk, bb, start, p, Apply(p, Get(ino)), ino);
    }

    method ExecPut(ino: nat, ghost p: Plain)
      requires Refines(p) && Legal(p, Put(ino))
      modifies this`chains, this`disk
      ensures Refines(Apply(p, Put(ino)))
    {
      assert HoldsIn(chains, disk, bb, start, p, ino);
      Iput(ino);
      StepHolds(old(chains), old(disk), chains, disk, bb, start, p, Apply(p, Put(ino)), ino);
    }

    /** A holder changes the inode and marks it dirty. */
    method ExecSet(ino: nat, body: seq<byte>, ghost p: Plain)
      requires Refines(p) && Legal(p, Set(ino, body))
      modifies this`chains
      ensures Refines(Apply(p, Set(ino, body)))
    {
      assert HoldsIn(chains, disk, bb, start, p, ino);
      var i := CacheFind(ino);
      var c := chains[ino % BUCKETS][i];
      Store(c.(body := body, dirty := true));
      StepHolds(old(chains), old(disk), chains, disk, bb, start, p, Apply(p, Set(ino, body)), ino);
    }

    /** Any legal sequence of gets, changes and puts reads the values of the plain map, whatever
        was evicted, written back or reloaded on the way. */
    method Run(ops: seq<Op>, ghost p: Plain) returns (outs: seq<seq<byte>>)
      requires Refines(p) && AllLegal(p, ops)
      modifies this`chains, this`disk
      ensures Refines(ApplyAll(p, ops)) && outs == Outputs(p, ops)
      decreases |ops|
    {
      if |ops| == 0 { return []; }
      var out := Exec(ops[0], p);
      var rest := Run(ops[1..], Apply(p, ops[0]));
      outs := [out] + rest;
    }

    /** The part of inodes_flush for one chain. */
    method FlushChain(h: nat)
      requires Ok() && Flushable(chains, live) && h < BUCKETS
      modifies this`chains, this`disk
      ensures Ok() && TableOnly(old(disk), disk, bb, start, |live|)
      ensures forall k :: 0 <= k < BUCKETS && k != h ==> chains[k] == old(chains)[k]
      ensures forall j: nat ::
        Entry(chains, j) == if j % BUCKETS == h then Flushed(old(chains), j) else old(Entry(chains, j))
      ensures forall j: nat :: SlotFlushed(old(chains), old(disk), disk, bb, start, j, j % BUCKETS == h)
    {
      hide TableOnly;
      TableOnlyRefl(disk, bb, start, |live|);
      var chain := chains[h];
      if |chain| > 0 && chain[0].dirty {
        InChainIs(chain, h, 0);
        var ino := chain[0].ino;
        assert ino % BUCKETS == h && Entry(chains, ino) == Some(chain[0]);
        DiskInodeWrite(ino);
      }
    }

    /** inodes_flush: looks at the first entry of each chain only. Exactly the dirty ones among them are
        written to their slots and marked clean. */
    method Flush()
      requires Ok() && Flushable(chains, live)
      modifies this`chains, this`disk
      ensures Ok() && TableOnly(old(disk), disk, bb, start, |live|)
      ensures forall j: nat :: Entry(chains, j) == Flushed(old(chains), j)
      ensures forall j: nat :: SlotFlushed(old(chains), old(disk), disk, bb, start, j, true)
    {
      hide TableOnly, BodyOf;
      TableOnlyRefl(disk, bb, start, |live|);
      var h := 0;
      while h < BUCKETS
        invariant 0 <= h <= BUCKETS && Ok() && TableOnly(old(disk), disk, bb, start, |live|)
        invariant forall k :: h <= k < BUCKETS ==> chains[k] == old(chains)[k]
        invariant forall j: nat ::
          Entry(chains, j) == if j % BUCKETS < h then Flushed(old(chains), j) else old(Entry(chains, j))
        invariant forall j: nat :: SlotFlushed(old(chains), old(disk), disk, bb, start, j, j % BUCKETS < h)
      {
        ghost var disk1 := disk;
        FlushChain(h);
        TableOnlyTrans(old(disk), disk1, disk, bb, start, |live|);
        h := h + 1;
      }
    }
  }

  /** Every cached inode is live and held, with room for one more reference. */
  ghost predicate Flushable(chains: Chains, live: seq<bool>)
    requires |chains| == BUCKETS
  {
    forall j: nat :: Entry(chains, j).Some? ==> j < |live| && live[j] && 1 <= Entry(chains, j).value.refs < U32 - 1
  }

  /** The slot of inode `j` after a flush that may have come past it: its cached body if it was dirty and
      first in its chain, else what was there. */
  ghost predicate SlotFlushed(chains: Chains, disk: seq<Block>, disk': seq<Block>, bb: nat, start: nat, j: nat,
    due: bool)
    requires |chains| == BUCKETS && 0 < bb
  {
    if due && IsHead(chains, j) && IsDirty(Entry(chains, j))
    then InSlot(disk', bb, start, j, Entry(chains, j).value.body)
    else SlotImage(disk', bb, start, j) == SlotImage(disk, bb, start, j)
  }

  /** The slot of inode `j` is its own and holds this body. */
  ghost predicate InSlot(disk: seq<Block>, bb: nat, start: nat, j: nat, body: seq<byte>)
    requires 0 < bb
  {
    Word(SlotImage(disk, bb, start, j), 0) == j && BodyOf(SlotImage(disk, bb, start, j)) == body
  }

  /** The inode's entry is the first of its chain. */
  predicate IsHead(chains: Chains, ino: nat)
    requires |chains| == BUCKETS
  {
    var chain := chains[ino % BUCKETS];
    |chain| > 0 && chain[0].ino == ino
  }

  /** An inode's entry after a flush. */
  function Flushed(chains: Chains, ino: nat): Option<Cached>
    requires |chains| == BUCKETS
  {
    var e := Entry(chains, ino);
    if e.Some? && IsHead(chains, ino) then Some(e.value.(dirty := false)) else e
  }

  predicate IsDirty(e: Option<Cached>) {
    e.Some? && e.value.dirty
  }

  /** The disk holds what the cache holds of inode `j`. */
  ghost predicate Saved(chains: Chains, disk: seq<Block>, bb: nat, start: nat, j: nat)
    requires |chains| == BUCKETS && 0 < bb
  {
    Entry(chains, j).Some? ==> InSlot(disk, bb, start, j, Entry(chains, j).value.body)
  }

  /** After a flush the disk holds every cached inode exactly if each was dirty and first in its chain,
      or agreed with its slot before. */
  lemma FlushComplete(chains: Chains, disk: seq<Block>, chains': Chains, disk': seq<Block>, bb: nat, start: nat)
    requires Chained(chains) && |chains'| == BUCKETS && 0 < bb
    requires forall j: nat :: Entry(chains', j) == Flushed(chains, j)
    requires forall j: nat :: SlotFlushed(chains, disk, disk', bb, start, j, true)
    ensures (forall j: nat :: Saved(chains', disk', bb, start, j)) <==>
            (forall j: nat :: (IsDirty(Entry(chains, j)) && IsHead(chains, j)) || Saved(chains, disk, bb, start, j))
  {
    hide BodyOf, Entry;
    forall j: nat ensures Saved(chains', disk', bb, start, j) <==>
      (IsDirty(Entry(chains, j)) && IsHead(chains, j)) || Saved(chains, disk, bb, start, j) {
      assert Entry(chains', j) == Flushed(chains, j) && SlotFlushed(chains, disk, disk', bb, start, j, true);
    }
  }

  /** While the cache stands for a plain map, that is: exactly if each dirty inode was first in its chain
      or agreed with its slot. The flush itself does not change what the cache stands for. */
  lemma FlushRefines(chains: Chains, disk: seq<Block>, chains': Chains, disk': seq<Block>, bb: nat, start: nat,
    p: Plain)
    requires Chained(chains) && |chains'| == BUCKETS && 0 < bb && AllHold(chains, disk, bb, start, p)
    requires forall j: nat :: Entry(chains, j).Some? ==> j in p.value
    requires forall j: nat :: Entry(chains', j) == Flushed(chains, j)
    requires forall j: nat :: SlotFlushed(chains, disk, disk', bb, start, j, true)
    ensures AllHold(chains', disk', bb, start, p)
    ensures (forall j: nat :: Saved(chains', disk', bb, start, j)) <==>
            (forall j: nat :: IsDirty(Entry(chains, j)) ==> IsHead(chains, j) || Saved(chains, disk, bb, start, j))
  {
    hide BodyOf, Entry;
    forall j: nat | j in p.value ensures HoldsIn(chains', disk', bb, start, p, j) {
      assert HoldsIn(chains, disk, bb, start, p, j);
      assert Entry(chains', j) == Flushed(chains, j) && SlotFlushed(chains, disk, disk', bb, start, j, true);
    }
    FlushComplete(chains, disk, chains', disk', bb, start);
    forall j: nat ensures !IsDirty(Entry(chains, j)) ==> Saved(chains, disk, bb, start, j) {
      if Entry(chains, j).Some? { assert HoldsIn(chains, disk, bb, start, p, j); }
    }
  }

  /** While all cached inodes have numbers below 256, each is alone in its chain. */
  lemma AloneInChain(chains: Chains, j: nat)
    requires Chained(chains) && (forall i: nat :: Entry(chains, i).Some? ==> i < 256) && Entry(chains, j).Some?
    ensures IsHead(chains, j)
  {
    var h := j % BUCKETS;
    assert ChainOk(chains[h], h);
    InChainIs(chains[h], h, 0);
    assert Entry(chains, chains[h][0].ino).Some?;
  }

  /** Then a flush saves every dirty inode. */
  lemma FlushSavesSmall(chains: Chains, disk: seq<Block>, chains': Chains, disk': seq<Block>, bb: nat, start: nat,
    j: nat)
    requires Chained(chains) && |chains'| == BUCKETS && 0 < bb
    requires forall i: nat :: Entry(chains, i).Some? ==> i < 256
    requires forall i: nat :: Entry(chains', i) == Flushed(chains, i)
    requires forall i: nat :: SlotFlushed(chains, disk, disk', bb, start, i, true)
    requires IsDirty(Entry(chains, j))
    ensures Saved(chains', disk', bb, start, j) && !IsDirty(Entry(chains', j))
  {
    hide Entry, ChainOk;
    AloneInChain(chains, j);
    assert SlotFlushed(chains, disk, disk', bb, start, j, true) && Entry(chains', j) == Flushed(chains, j);
  }

  /** Two dirty inodes in one chain. */
  function TwoInChain(body: seq<byte>): Chains {
    seq(BUCKETS, h => if h == 0 then [Cached(0, body, 1, true), Cached(256, body, 1, true)] else [])
  }

  /** A flush leaves the second dirty, and its slot as it was. */
  lemma FlushMisses(body: seq<byte>, disk: seq<Block>, chains': Chains, disk': seq<Block>, bb: nat, start: nat)
    requires |body| == BODY && 0 < bb && BodyOf(SlotImage(disk, bb, start, 256)) != body && |chains'| == BUCKETS
    requires forall j: nat :: Entry(chains', j) == Flushed(TwoInChain(body), j)
    requires forall j: nat :: SlotFlushed(TwoInChain(body), disk, disk', bb, start, j, true)
    ensures Chained(TwoInChain(body)) && IsDirty(Entry(chains', 256)) && !Saved(chains', disk', bb, start, 256)
  {
    var chain := [Cached(0, body, 1, true), Cached(256, body, 1, true)];
    assert TwoInChain(body)[0] == chain;
    assert FindIn(chain[1..], 256) == 0;
    assert FindIn(chain, 256) == 1;
    assert SlotFlushed(TwoInChain(body), disk, disk', bb, start, 256, true);
  }

  /** Inode 0 was changed to ones while it was held once, but not marked dirty. */
  ghost predicate Unmarked(cache: InodeCache)
    reads cache
  {
    && cache.Ok() && |cache.live| > 0 && cache.live[0]
      && Entry(cache.chains, 0) == Some(Cached(0, seq(BODY, _ => 1), 1, false))
    && BodyOf(SlotImage(cache.disk, cache.bb, cache.start, 0)) == seq(BODY, _ => 0)
  }

  /** Such a state is reached by a get, a write-back and a change. */
  method ChangeUnmarked() returns (cache: InodeCache)
    ensures fresh(cache) && Unmarked(cache)
  {
    cache := new InodeCache(512, 0, [Zeros(512)], [true]);
    ZeroSlot();
    var _ := cache.Iget(0);
    cache.DiskInodeWrite(0);
    cache.Store(Cached(0, seq(BODY, _ => 1), 1, false));
  }

  /** The last put drops the change. */
  method PutLoses(cache: InodeCache)
    requires Unmarked(cache)
    modifies cache`chains, cache`disk
    ensures cache.Ok() && old(cache.Value(0)) == seq(BODY, _ => 1) && cache.Value(0) == seq(BODY, _ => 0)
  {
    cache.Iput(0);
  }

  lemma ZeroSlot()
    ensures BodyOf(SlotImage([Zeros(512)], 512, 0, 0)) == seq(BODY, _ => 0)
    ensures Word(SlotImage([Zeros(512)], 512, 0, 0), 0) == 0
  {
    var image := SlotImage([Zeros(512)], 512, 0, 0);
    forall k | 0 <= k < INODE ensures image[k] == 0 {
      assert Split(k, 512) == (0, k);
      assert image[k] == TableByte([Zeros(512)], 512, 0, INODE * 0 + k);
    }
  }
}
