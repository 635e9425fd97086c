/** The contents of a directory file: 36-byte records, a NUL-terminated name of at most 31
    characters in 32 bytes and a 32-bit inode number. */
module FsRecords {
  import opened Bytes
  import opened FsNames

  const NAME := 32
  const RECORD := 36

  type Rec = r: seq<byte> | |r| == RECORD witness seq(RECORD, _ => 0)

  /** The C string at the start of a buffer. */
  function CStr(b: seq<byte>): (s: Name)
    ensures |s| <= |b| && NoNul(s)
  {
    if b == [] || b[0] == 0 then [] else [b[0]] + CStr(b[1..])
  }

  predicate NoNul(s: seq<byte>) {
    forall k :: 0 <= k < |s| ==> s[k] != 0
  }

  function NameOf(r: Rec): Name {
    CStr(r[..NAME])
  }

  function InoOf(r: Rec): u32 {
    Word(r, NAME)
  }

  /** The name a record can hold: strncpy of 31 characters. */
  function Truncated(name: Name): Name {
    if |name| < NAME then name else name[..NAME - 1]
  }

  /** The record myfs_dir_add_entry builds. */
  function MakeRec(name: Name, ino: u32): (r: Rec) {
    var stored := Truncated(name);
    stored + Zeros(NAME - |stored|) + WordBytes(ino)
  }

  lemma {:induction false} CStrPadded(name: Name, n: nat)
    requires NoNul(name) && 0 < n
    ensures CStr(name + Zeros(n)) == name
  {
    var b := name + Zeros(n);
    if name != [] {
      assert b[1..] == name[1..] + Zeros(n);
      CStrPadded(name[1..], n);
    }
  }

  /** A record gives back the inode number and the truncated name. */
  lemma MadeRec(name: Name, ino: u32)
    requires NoNul(name)
    ensures NameOf(MakeRec(name, ino)) == Truncated(name) && InoOf(MakeRec(name, ino)) == ino
  {
    var stored, r := Truncated(name), MakeRec(name, ino);
    assert r[..NAME] == stored + Zeros(NAME - |stored|);
    CStrPadded(stored, NAME - |stored|);
    assert r[NAME..] == WordBytes(ino);
    assert Word(r, NAME) == Word(r[NAME..], 0);
  }

  /** A record is 32 bytes of name, padded with zeros, and the inode number. */
  lemma RecFormat(name: Name, ino: u32)
    requires |name| < 32
    ensures var r := MakeRec(name, ino);
      |r| == 36 && r[..|name|] == name && (forall k :: |name| <= k < 32 ==> r[k] == 0) && r[32..] == WordBytes(ino)
  {
  }

  /** The whole records of a directory file. */
  function Records(c: seq<byte>): (rs: seq<Rec>) {
    if |c| < RECORD then [] else [c[..RECORD]] + Records(c[RECORD..])
  }

  function Flatten(rs: seq<Rec>): (c: seq<byte>)
    ensures |c| == RECORD * |rs|
  {
    if rs == [] then [] else rs[0] + Flatten(rs[1..])
  }

  lemma {:induction false} RecordsFlatten(rs: seq<Rec>)
    ensures Records(Flatten(rs)) == rs
  {
    if rs != [] {
      var c := Flatten(rs);
      assert c[..RECORD] == rs[0] && c[RECORD..] == Flatten(rs[1..]);
      RecordsFlatten(rs[1..]);
    }
  }

  lemma {:induction false} FlattenRecords(c: seq<byte>)
    requires |c| % RECORD == 0
    ensures Flatten(Records(c)) == c && |Records(c)| == |c| / RECORD
  {
    if c != [] {
      FlattenRecords(c[RECORD..]);
      assert Records(c)[1..] == Records(c[RECORD..]);
    }
  }

  lemma {:induction false} FlattenConcat(a: seq<Rec>, b: seq<Rec>)
    ensures Flatten(a + b) == Flatten(a) + Flatten(b)
  {
    if a == [] {
      assert a + b == b && Flatten(a) == [];
    } else {
      var rest := Flatten(a[1..]);
      FlattenConcat(a[1..], b);
      assert (a + b)[1..] == a[1..] + b && (a + b)[0] == a[0];
      assert a[0] + (rest + Flatten(b)) == (a[0] + rest) + Flatten(b);
    }
  }

  lemma AppendRecord(c: seq<byte>, r: Rec)
    requires |c| % RECORD == 0
    ensures |c + r| % RECORD == 0 && Records(c + r) == Records(c) + [r]
    ensures Decoded(Records(c + r)) == Decoded(Records(c)) + [EntryOf(r)]
  {
    FlattenRecords(c);
    FlattenConcat(Records(c), [r]);
    assert Flatten([r]) == r;
    RecordsFlatten(Records(c) + [r]);
  }

  function Without<T>(xs: seq<T>, i: nat): seq<T>
    requires i < |xs|
  {
    xs[..i] + xs[i + 1..]
  }

  /** Dropping one record drops one entry, in the list and in the map. */
  lemma RemoveRecord(rs: seq<Rec>, i: nat)
    requires i < |rs| && Unique(Decoded(rs))
    ensures |Flatten(Without(rs, i))| % RECORD == 0
    ensures var es, es' := Decoded(rs), Decoded(Records(Flatten(Without(rs, i))));
      es' == Without(es, i) && Unique(es') && Dir(es') == Dir(es) - {es[i].name}
  {
    var es, rest := Decoded(rs), Without(rs, i);
    RecordsFlatten(rest);
    DivModIs(|Flatten(rest)|, RECORD, |rest|, 0);
    assert Decoded(rest) == Without(es, i) by { DecodedWithout(rs, i); }
    WithoutDir(es, i, Without(es, i));
  }

  lemma DecodedWithout(rs: seq<Rec>, i: nat)
    requires i < |rs|
    ensures Decoded(Without(rs, i)) == Without(Decoded(rs), i)
  {
    var a, b := Decoded(Without(rs, i)), Without(Decoded(rs), i);
    forall k | 0 <= k < |a| ensures a[k] == b[k] {
      assert Without(rs, i)[k] == rs[if k < i then k else k + 1];
    }
  }

  function EntryOf(r: Rec): Entry {
    Entry(NameOf(r), InoOf(r))
  }

  /** The entries of a directory file. */
  function Decoded(rs: seq<Rec>): (es: seq<Entry>)
    ensures |es| == |rs| && forall i :: 0 <= i < |rs| ==> es[i] == EntryOf(rs[i])
  {
    seq(|rs|, i requires 0 <= i < |rs| => EntryOf(rs[i]))
  }

  /** A name longer than 31 characters is stored truncated and then never found; a stored
      name collides with an existing entry exactly when its truncation does. */
  lemma LongNames(rs: seq<Rec>, name: Name, ino: u32)
    requires NoNul(name) && Unique(Decoded(rs))
    ensures name in Dir(Decoded(rs + [MakeRec(name, ino)])) <==> |name| < NAME || name in Dir(Decoded(rs))
    ensures Unique(Decoded(rs + [MakeRec(name, ino)])) <==> Truncated(name) !in Dir(Decoded(rs))
  {
    var es, e := Decoded(rs), Entry(Truncated(name), ino);
    MadeRec(name, ino);
    assert Decoded(rs + [MakeRec(name, ino)]) == es + [e];
    AppendUnique(es, e);
    AppendFind(es, e, name);
    FindIsLookup(es, name);
    FindIsLookup(es, e.name);
    FindIsLookup(es + [e], name);
    assert |name| >= NAME ==> |Truncated(name)| < |name|;
  }

  /** Two names that share their first 31 characters: the second can be added although its
      stored form is already there. */
  lemma LongNameCollision(a: Name, b: Name, ino: u32)
    requires NoNul(a) && NoNul(b) && |a| >= NAME && |b| >= NAME && a[..NAME - 1] == b[..NAME - 1]
    ensures var es := Decoded([MakeRec(a, ino)]); Find(es, b) == -1 && !Unique(es + [EntryOf(MakeRec(b, ino))])
  {
    MadeRec(a, ino);
    MadeRec(b, ino);
    var es := Decoded([MakeRec(a, ino)]);
    assert (es + [EntryOf(MakeRec(b, ino))])[0].name == (es + [EntryOf(MakeRec(b, ino))])[1].name;
    assert |es[0].name| < |b|;
  }
}
