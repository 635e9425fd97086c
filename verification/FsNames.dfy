/** Lists of directory entries as finite maps. */
module FsNames {
  import opened Bytes

  type Name = seq<byte>

  datatype Entry = Entry(name: Name, ino: u32)

  /** Index of the first entry with a name, as myfs_entry_idx_find computes it. */
  function Find(es: seq<Entry>, name: Name): (i: int)
    ensures -1 <= i < |es|
    ensures i >= 0 ==> es[i].name == name && forall k :: 0 <= k < i ==> es[k].name != name
    ensures i == -1 ==> forall k :: 0 <= k < |es| ==> es[k].name != name
  {
    if es == [] then -1
    else if es[0].name == name then 0
    else
      var i := Find(es[1..], name);
      if i == -1 then -1 else i + 1
  }

  /** The finite map a list of entries stands for; the first entry of a name counts. */
  function Dir(es: seq<Entry>): (m: map<Name, u32>) {
    if es == [] then map[] else Dir(es[1..])[es[0].name := es[0].ino]
  }

  /** The search finds exactly the names of the map, with their inode numbers. */
  lemma {:induction false} FindIsLookup(es: seq<Entry>, n: Name)
    ensures n in Dir(es) <==> Find(es, n) >= 0
    ensures n in Dir(es) ==> Dir(es)[n] == es[Find(es, n)].ino
  {
    if es != [] { FindIsLookup(es[1..], n); }
  }

  ghost predicate Unique(es: seq<Entry>) {
    forall i, j :: 0 <= i < j < |es| ==> es[i].name != es[j].name
  }

  /** With distinct names, the map has one name per entry. */
  lemma {:induction false} DirSize(es: seq<Entry>)
    requires Unique(es)
    ensures |Dir(es)| == |es|
  {
    if es != [] {
      DirSize(es[1..]);
      FindIsLookup(es[1..], es[0].name);
      assert es[0].name !in Dir(es[1..]);
    }
  }

  lemma FindIs(es: seq<Entry>, n: Name, i: int)
    requires -1 <= i < |es| && (i >= 0 ==> es[i].name == n)
    requires forall k :: 0 <= k < |es| && es[k].name == n ==> 0 <= i <= k
    ensures Find(es, n) == i
  {
  }

  lemma AppendFind(es: seq<Entry>, e: Entry, n: Name)
    ensures Find(es + [e], n) == if Find(es, n) == -1 && n == e.name then |es| else Find(es, n)
  {
    var all := es + [e];
    var i := if Find(es, n) == -1 && n == e.name then |es| else Find(es, n);
    forall k | 0 <= k < |all| && all[k].name == n ensures 0 <= i <= k {
      if k < |es| { assert all[k] == es[k]; }
    }
    assert i >= 0 ==> all[i] == if i == |es| then e else es[i];
    FindIs(all, n, i);
  }

  /** Appending an entry with a new name adds it to the map. */
  lemma AppendDir(es: seq<Entry>, e: Entry)
    requires e.name !in Dir(es)
    ensures Dir(es + [e]) == Dir(es)[e.name := e.ino]
  {
    var m, m' := Dir(es), Dir(es + [e]);
    forall n ensures n in m' <==> n in m || n == e.name
             ensures n in m' ==> m'[n] == if n == e.name then e.ino else m[n]
    {
      AppendFind(es, e, n);
      FindIsLookup(es, n);
      FindIsLookup(es + [e], n);
      FindIsLookup(es, e.name);
    }
  }

  /** Names stay unique exactly when the appended one is new. */
  lemma AppendUnique(es: seq<Entry>, e: Entry)
    requires Unique(es)
    ensures Unique(es + [e]) <==> Find(es, e.name) == -1
  {
    var all := es + [e];
    assert all[|es|] == e;
    assert forall i :: 0 <= i < |es| ==> all[i] == es[i];
    if Find(es, e.name) >= 0 { assert all[Find(es, e.name)].name == all[|es|].name; }
  }

  lemma RemoveFind(es: seq<Entry>, i: nat, n: Name, rest: seq<Entry>)
    requires i < |es| && Unique(es) && rest == es[..i] + es[i + 1..]
    ensures Find(rest, n) ==
              if n == es[i].name then -1 else if Find(es, n) < i then Find(es, n) else Find(es, n) - 1
    ensures Find(rest, n) >= 0 ==> Find(es, n) >= 0 && rest[Find(rest, n)] == es[Find(es, n)]
    ensures Find(es, n) >= 0 && n != es[i].name ==> Find(rest, n) >= 0
  {
    var f := Find(es, n);
    var j := if n == es[i].name then -1 else if f < i then f else f - 1;
    forall k | 0 <= k < |rest| && rest[k].name == n ensures 0 <= j <= k {
      var o := if k < i then k else k + 1;
      assert es[o] == rest[k];
    }
    if j >= 0 { assert rest[j] == es[f]; }
    FindIs(rest, n, j);
  }

  /** Removing an entry of a list with unique names removes it from the map; the order of the
      others stays. */
  lemma WithoutDir(es: seq<Entry>, i: nat, rest: seq<Entry>)
    requires i < |es| && Unique(es) && rest == es[..i] + es[i + 1..]
    ensures Unique(rest) && Dir(rest) == Dir(es) - {es[i].name}
  {
    var m, m' := Dir(es), Dir(rest);
    forall n ensures n in m' <==> n in m && n != es[i].name
             ensures n in m' ==> m'[n] == m[n]
    {
      RemoveFind(es, i, n, rest);
      FindIsLookup(es, n);
      FindIsLookup(rest, n);
    }
    RemoveUnique(es, i, rest);
  }

  lemma RemoveUnique(es: seq<Entry>, i: nat, rest: seq<Entry>)
    requires i < |es| && Unique(es) && rest == es[..i] + es[i + 1..]
    ensures Unique(rest)
  {
    forall j, k | 0 <= j < k < |rest| ensures rest[j].name != rest[k].name {
      assert rest[j] == es[if j < i then j else j + 1] && rest[k] == es[if k < i then k else k + 1];
    }
  }
}
