/** Sound volumes on which an operation does not do what one would expect of it. */
module FsExamples {
  import opened Bytes
  import opened FsNames
  import opened FsRecords
  import opened FsLayout
  import opened FsSpace
  import opened FsVolume
  import opened FsFile
  import opened FsDir
  import opened FsTree

  const SMALL := Geometry(512, 4, 2)

  /** `n` records with the names 1, 2, ... */
  function Rows(n: nat): (rs: seq<Rec>)
    requires n < 255
    ensures |rs| == n && forall k :: 0 <= k < n ==> rs[k] == MakeRec([(k + 1) as byte], 0)
  {
    seq(n, k requires 0 <= k < n => MakeRec([(k + 1) as byte], 0))
  }

  function RowBlock(n: nat): (b: Block)
    requires n <= 14
    ensures |b| == 512 && b[..RECORD * n] == Flatten(Rows(n))
  {
    Flatten(Rows(n)) + Zeros(512 - RECORD * n)
  }

  function Folder(block: u32, size: u32): Inode {
    Inode(Directory, [block, 0, 0, 0, 0, 0, 0, 0, 0, 0], 0, 0, 1, size)
  }

  /** Two directories with one block each on a volume without a free block: the first has two
      entries, the second is full. */
  function Packed(): Store {
    Store([Zeros(512), Zeros(512), RowBlock(2), RowBlock(14)], map[0 := Folder(2, 72), 1 := Folder(3, 504)])
  }

  const HOLDERS: Owners := map[2 := (0, Leaf(Direct(0))), 3 := (1, Leaf(Direct(0)))]

  lemma PackedPtrs(i: nat, l: Loc)
    ensures Ptr(Packed(), i, l) == if l == Leaf(Direct(0)) && i == 0 then 2 else if l == Leaf(Direct(0)) && i == 1
      then 3 else 0
  {
    if i in Packed().nodes {
      var nd := Packed().nodes[i];
      assert nd.single == 0 && nd.double == 0 && forall k :: 1 <= k < 10 ==> nd.ptrs[k] == 0;
    }
  }

  lemma OneBlock(s: Store, i: nat, b: u32, size: u32)
    requires i in s.nodes && s.nodes[i] == Folder(b, size) && 0 < b < |s.disk| && |s.disk[b]| == 512 && size <= 512
    ensures Content(SMALL, s, i) == s.disk[b][..size]
  {
    forall k | 0 <= k < size ensures ByteAt(SMALL, s, i, k) == s.disk[b][k] { assert Split(k, 512) == (0, k); }
  }

  lemma RowNames(n: nat, k: nat)
    requires k < n <= 14
    ensures EntryOf(Rows(n)[k]).name == [(k + 1) as byte]
  {
    MadeRec([(k + 1) as byte], 0);
  }

  lemma RowDir(n: nat)
    requires 0 < n <= 14
    ensures DirOk(Flatten(Rows(n))) && [1] in Dir(EntriesIn(Flatten(Rows(n))))
    ensures [99] !in Dir(EntriesIn(Flatten(Rows(n))))
  {
    var rs := Rows(n);
    RecordsFlatten(rs);
    DivModIs(|Flatten(rs)|, RECORD, n, 0);
    var es := Decoded(rs);
    forall k | 0 <= k < n ensures es[k].name == [(k + 1) as byte] { RowNames(n, k); }
    FindIsLookup(es, [1]);
    FindIsLookup(es, [99]);
    FindIs(es, [1], 0);
    FindIs(es, [99], -1);
  }

  lemma PackedListings()
    ensures DirsOk(SMALL, Packed())
    ensures [1] in Listing(SMALL, Packed(), 0) && [99] !in Listing(SMALL, Packed(), 1)
  {
    hide Rows, Flatten, Records, Zeros, Content, PathOf, Dir, Decoded;
    var s := Packed();
    OneBlock(s, 0, 2, 72);
    OneBlock(s, 1, 3, 504);
    RowDir(2);
    RowDir(14);
  }

  lemma PackedSound()
    ensures var s := Packed(); var bits := seq(8, _ => true);
      Shape(SMALL, s, bits) && Linked(s, HOLDERS) && Bitmapped(SMALL, bits, HOLDERS, {}) && AllDense(SMALL, s)
  {
    hide RowBlock, Zeros;
    var s := Packed();
    forall i: nat, l: Loc ensures Ptr(s, i, l) == if l == Leaf(Direct(0)) && i == 0 then 2
      else if l == Leaf(Direct(0)) && i == 1 then 3 else 0 {
      PackedPtrs(i, l);
    }
    assert forall j: nat :: PathOf(128, j) == Direct(0) <==> j == 0;
    assert Split(71, 512) == (0, 71) && Split(503, 512) == (0, 503);
  }

  /** A rename that loses its entry: the new directory needs a second block for the record, none is
      free, and the old directory keeps its own. */
  lemma RenameLoses()
    ensures var s := Packed(); var bits := seq(8, _ => true);
      && Shape(SMALL, s, bits) && Linked(s, HOLDERS) && Bitmapped(SMALL, bits, HOLDERS, {}) && AllDense(SMALL, s)
        && DirsOk(SMALL, s)
      && [1] in Listing(SMALL, s, 0) && !RenameFits(SMALL, s, bits, 0, 1, [99])
  {
    hide RowBlock, Zeros, Content, Listing, Linked, AllDense, DirsOk, Bitmapped, Shape, RoomAfter, Free, Surplus;
    PackedSound();
    PackedListings();
    PackedFull();
  }

  lemma PackedFull()
    ensures var s := Packed(); !RoomAfter(SMALL, s, |Free(SMALL, seq(8, _ => true))| + Surplus(SMALL, s, 0), 1, RECORD)
  {
    hide RowBlock, Zeros, PathOf, Missing;
    assert Split(35, 512) == (0, 35) && Split(539, 512) == (1, 27);
    assert Free(SMALL, seq(8, _ => true)) == {};
  }

  /** Growing a file by truncation: the sound volume is not dense any more. */
  lemma TruncateGrows()
    ensures var s := Packed(); var s' := s.(nodes := s.nodes[0 := s.nodes[0].(size := 513)]);
      AllDense(SMALL, s) && !AllDense(SMALL, s')
  {
    hide RowBlock, Zeros, PathOf, Linked, Bitmapped, Shape;
    PackedSound();
    var s := Packed();
    var s' := s.(nodes := s.nodes[0 := s.nodes[0].(size := 513)]);
    assert Split(512, 512) == (1, 0);
    assert !Dense(SMALL, s', 0);
  }
}
