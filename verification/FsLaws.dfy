/** What users of the file system can rely on from one call to the next, in any run. */
module FsLaws {
  import opened Common
  import opened Bytes
  import opened FsNames
  import opened FsLayout
  import opened FsFile
  import opened FsTree
  import opened FsDir
  import opened FsRecords
  import opened FsRun

  /** The nodes of a volume are the keys of its world, and files are files there. */
  lemma Kinds(g: Geometry, n: Snap, i: nat)
    requires g.Ok() && i in n.s.nodes
    ensures i in WorldOf(g, n.s) && (WorldOf(g, n.s)[i].File? <==> n.s.nodes[i].kind == Regular)
  {
    hide Content, Listing;
  }

  /** The bytes of file `i`, if there is one. */
  ghost function FileBytes(g: Geometry, n: Snap, i: nat): Option<seq<byte>>
    requires g.Ok()
  {
    if i in n.s.nodes && n.s.nodes[i].kind == Regular then Some(Content(g, n.s, i)) else None
  }

  lemma BytesAre(g: Geometry, n: Snap, i: nat)
    requires g.Ok()
    ensures i in WorldOf(g, n.s) <==> i in n.s.nodes
    ensures FileBytes(g, n, i) == if i in WorldOf(g, n.s) && WorldOf(g, n.s)[i].File?
      then Some(WorldOf(g, n.s)[i].content)
      else None
  {
    hide Content, Listing;
  }

  ghost predicate IsRun(g: Geometry, trace: seq<Snap>, es: seq<Event>, outs: seq<Output>)
    requires g.Ok()
  {
    && |trace| == |es| + 1 && |outs| == |es|
    && forall k :: 0 <= k < |es| ==> Explains(g, trace[k], es[k], trace[k + 1], outs[k])
  }

  /** No event but a write to a file changes it while it exists. */
  lemma FileKept(g: Geometry, n: Snap, e: Event, n': Snap, o: Output, i: nat)
    requires g.Ok() && Explains(g, n, e, n', o) && !(e.Write? && e.ino == i)
    requires FileBytes(g, n, i).Some? && i in n'.s.nodes
    ensures FileBytes(g, n', i) == FileBytes(g, n, i)
  {
    hide WorldOf, Roomy, Slice, Overlaid, Named, Entries, RemoveAnswer, Moved, Stripped, FileBytes;
    BytesAre(g, n, i);
    BytesAre(g, n', i);
    WorldKept(g, n, e, n', o, i);
  }

  lemma WorldKept(g: Geometry, n: Snap, e: Event, n': Snap, o: Output, i: nat)
    requires g.Ok() && Explains(g, n, e, n', o) && !(e.Write? && e.ino == i)
    requires i in WorldOf(g, n.s) && WorldOf(g, n.s)[i].File? && i in WorldOf(g, n'.s)
    ensures WorldOf(g, n'.s)[i] == WorldOf(g, n.s)[i]
  {
    hide WorldOf, Explains;
    if e.Move? {
      MoveKeeps(g, n, e, n', o, i);
    } else if e.MakeFile? || e.MakeDir? {
      MakeKeeps(g, n, e, n', o, i);
    } else {
      RestKeeps(g, n, e, n', o, i);
    }
  }

  /** An event that was not refused is a step of the specification. */
  lemma StepOf(g: Geometry, n: Snap, e: Event, n': Snap, o: Output)
    requires g.Ok() && Explains(g, n, e, n', o)
    ensures if Fit(g, n.s, e) then Step(WorldOf(g, n.s), e, WorldOf(g, n'.s), o, Roomy(g, n, e))
      else o == Refused && n' == n
  {
    hide Step, Fit, WorldOf, Roomy;
  }

  lemma MoveKeeps(g: Geometry, n: Snap, e: Event, n': Snap, o: Output, i: nat)
    requires g.Ok() && Explains(g, n, e, n', o) && e.Move?
    requires i in WorldOf(g, n.s) && WorldOf(g, n.s)[i].File? && i in WorldOf(g, n'.s)
    ensures WorldOf(g, n'.s)[i] == WorldOf(g, n.s)[i]
  {
    hide Explains, Step, Fit, WorldOf, Roomy;
    StepOf(g, n, e, n', o);
    if Fit(g, n.s, e) { FileMoved(WorldOf(g, n.s), e, WorldOf(g, n'.s), o, Roomy(g, n, e), i); }
  }

  lemma FileMoved(w: World, e: Event, w': World, o: Output, roomy: bool, i: nat)
    requires e.Move? && Step(w, e, w', o, roomy) && i in w && w[i].File? && i in w'
    ensures w'[i] == w[i]
  {
    hide Named, Entries, Moved, Stripped;
  }

  lemma MakeKeeps(g: Geometry, n: Snap, e: Event, n': Snap, o: Output, i: nat)
    requires g.Ok() && Explains(g, n, e, n', o) && (e.MakeFile? || e.MakeDir?)
    requires i in WorldOf(g, n.s) && WorldOf(g, n.s)[i].File? && i in WorldOf(g, n'.s)
    ensures WorldOf(g, n'.s)[i] == WorldOf(g, n.s)[i]
  {
    hide WorldOf, Roomy, Entries;
    if Fit(g, n.s, e) { Kinds(g, n, e.d); }
  }

  lemma RestKeeps(g: Geometry, n: Snap, e: Event, n': Snap, o: Output, i: nat)
    requires g.Ok() && Explains(g, n, e, n', o) && !e.Move? && !e.MakeFile? && !e.MakeDir?
    requires !(e.Write? && e.ino == i) && i in WorldOf(g, n.s) && WorldOf(g, n.s)[i].File? && i in WorldOf(g, n'.s)
    ensures WorldOf(g, n'.s)[i] == WorldOf(g, n.s)[i]
  {
    hide WorldOf, Roomy, Slice, Overlaid, Named, Entries, RemoveAnswer, Target;
    if Fit(g, n.s, e) && (e.Remove? || e.RemoveFolder?) { Kinds(g, n, e.d); }
  }

  lemma {:induction false} FileStays(g: Geometry, trace: seq<Snap>, es: seq<Event>, outs: seq<Output>, i: nat, a: nat,
    b: nat)
    requires g.Ok() && IsRun(g, trace, es, outs) && a <= b <= |es|
    requires forall k :: a <= k < b ==> !(es[k].Write? && es[k].ino == i)
    requires (forall k :: a <= k <= b ==> i in trace[k].s.nodes) && FileBytes(g, trace[a], i).Some?
    ensures FileBytes(g, trace[b], i) == FileBytes(g, trace[a], i)
    decreases b
  {
    hide Explains, FileBytes;
    if a < b {
      FileStays(g, trace, es, outs, i, a, b - 1);
      FileKept(g, trace[b - 1], es[b - 1], trace[b], outs[b - 1], i);
    }
  }

  /** A write that succeeded, and the file after it. */
  lemma WrittenBytes(g: Geometry, n: Snap, i: nat, off: nat, data: seq<byte>, n': Snap)
    requires g.Ok() && data != [] && Explains(g, n, Write(i, off, data), n', Number(|data|))
    ensures off + |data| < U32 && FileBytes(g, n', i).Some? && Slice(FileBytes(g, n', i).value, off, |data|) == data
  {
    hide WorldOf, Roomy, Slice, Overlaid, FileBytes;
    var w, w' := WorldOf(g, n.s), WorldOf(g, n'.s);
    BytesAre(g, n', i);
    assert Written(w, w', i, off, data);
    ReadBack(w[i].content, off, data, w'[i].content);
  }

  /** A read of a file. */
  lemma ReadBytes(g: Geometry, n: Snap, i: nat, off: nat, count: nat, n': Snap, o: Output)
    requires g.Ok() && Explains(g, n, Read(i, off, count), n', o) && FileBytes(g, n, i).Some? && off + count < U32
    ensures o == Data(Slice(FileBytes(g, n, i).value, off, count)) && FileBytes(g, n', i) == FileBytes(g, n, i)
  {
    hide WorldOf, Roomy, Slice;
    BytesAre(g, n, i);
    BytesAre(g, n', i);
  }

  /** Data written to a file is what a later read of the place returns, whatever happens in between to
      other files and directories, as long as the file exists and is not written to again. */
  lemma WrittenStays(g: Geometry, trace: seq<Snap>, es: seq<Event>, outs: seq<Output>, a: nat, b: nat, i: nat, off: nat,
    data: seq<byte>)
    requires g.Ok() && IsRun(g, trace, es, outs) && a < b < |es| && data != []
    requires es[a] == Write(i, off, data) && outs[a] == Number(|data|) && es[b] == Read(i, off, |data|)
    requires forall k :: a < k < b ==> !(es[k].Write? && es[k].ino == i)
    requires forall k :: a < k <= b ==> i in trace[k].s.nodes
    ensures outs[b] == Data(data)
  {
    hide Explains, FileBytes, Slice;
    WrittenBytes(g, trace[a], i, off, data, trace[a + 1]);
    FileStays(g, trace, es, outs, i, a + 1, b);
    ReadBytes(g, trace[b], i, off, |data|, trace[b + 1], outs[b]);
  }

  /** Reading in two pieces gives what reading at once gives. */
  lemma ReadInPieces(g: Geometry, n: Snap, i: nat, off: nat, a: nat, b: nat, n1: Snap, n2: Snap, n3: Snap, o1: Output,
    o2: Output, o3: Output)
    requires g.Ok() && FileBytes(g, n, i).Some? && off + a + b < U32
    requires Explains(g, n, Read(i, off, a), n1, o1) && Explains(g, n1, Read(i, off + a, b), n2, o2)
    requires Explains(g, n, Read(i, off, a + b), n3, o3)
    ensures o1.Data? && o2.Data? && o3.Data? && o3.bytes == o1.bytes + o2.bytes
  {
    hide Explains, FileBytes, Slice;
    ReadBytes(g, n, i, off, a, n1, o1);
    ReadBytes(g, n1, i, off + a, b, n2, o2);
    ReadBytes(g, n, i, off, a + b, n3, o3);
    ReadsJoin(FileBytes(g, n, i).value, off, a, b);
  }

  /** What a lookup finds. */
  lemma Finds(g: Geometry, n: Snap, d: nat, name: Name, n': Snap, o: Output)
    requires g.Ok() && Explains(g, n, Find(d, name), n', o) && d in WorldOf(g, n.s) && WorldOf(g, n.s)[d].Folder?
    ensures var m := WorldOf(g, n.s)[d].entries; o == Number(if name in m then m[name] else -1)
  {
    hide WorldOf, Roomy;
    BytesAre(g, n, d);
    Kinds(g, n, d);
  }

  /** A file just made is found under its name, with a number that was not in use, and is empty. */
  lemma MakeThenFind(g: Geometry, n: Snap, d: nat, name: Name, n1: Snap, n2: Snap, o1: Output, o2: Output)
    requires g.Ok() && Explains(g, n, MakeFile(d, name), n1, o1) && o1 == Number(0)
    requires Explains(g, n1, Find(d, name), n2, o2)
    ensures o2.Number? && o2.n >= 0 && o2.n !in n.s.nodes && FileBytes(g, n1, o2.n) == Some([])
  {
    hide WorldOf, Roomy, FileBytes;
    var w, w1 := WorldOf(g, n.s), WorldOf(g, n1.s);
    Kinds(g, n, d);
    var ino :| Made(w, w1, d, name, ino, File([]));
    Finds(g, n1, d, name, n2, o2);
    BytesAre(g, n, ino);
    BytesAre(g, n1, ino);
  }

  /** A name just removed is not found. */
  lemma RemoveThenFind(g: Geometry, n: Snap, d: nat, name: Name, n1: Snap, n2: Snap, o1: Output, o2: Output)
    requires g.Ok() && Explains(g, n, Remove(d, name), n1, o1) && o1 == Number(0)
    requires Explains(g, n1, Find(d, name), n2, o2)
    ensures o2 == Number(-1)
  {
    hide WorldOf, Roomy, Named;
    Kinds(g, n, d);
    Finds(g, n1, d, name, n2, o2);
  }

  /** The two directories of a rename afterwards. */
  lemma MovedEntries(g: Geometry, n: Snap, from: nat, oldName: Name, to: nat, newName: Name, n1: Snap)
    requires g.Ok() && Explains(g, n, Move(from, oldName, to, newName), n1, Number(RECORD))
    ensures var w, w1 := WorldOf(g, n.s), WorldOf(g, n1.s);
      && from in w && w[from].Folder? && from in w1 && w1[from].Folder? && to in w1 && w1[to].Folder?
      && oldName in w[from].entries && newName in w1[to].entries && w1[to].entries[newName] == w[from].entries[oldName]
      && (from != to || oldName != newName ==> oldName !in w1[from].entries)
  {
    hide Explains, Step, Fit, WorldOf, Roomy, Named;
    var e := Move(from, oldName, to, newName);
    StepOf(g, n, e, n1, Number(RECORD));
    MoveFits(g, n, from, oldName, to, newName);
    EntryMoved(WorldOf(g, n.s), from, oldName, to, newName, WorldOf(g, n1.s), Roomy(g, n, e));
  }

  lemma MoveFits(g: Geometry, n: Snap, from: nat, oldName: Name, to: nat, newName: Name)
    requires g.Ok() && Fit(g, n.s, Move(from, oldName, to, newName))
    ensures var w := WorldOf(g, n.s);
      && from in w && w[from].Folder? && to in w && w[to].Folder?
      && (from != to || newName != oldName ==> from !in Named(w, to, newName) && to !in Named(w, to, newName))
  {
    hide WorldOf, Target, Named;
    Kinds(g, n, from);
    Kinds(g, n, to);
    TargetNamed(g, n.s, to, newName);
  }

  lemma EntryMoved(w: World, from: nat, oldName: Name, to: nat, newName: Name, w': World, roomy: bool)
    requires Step(w, Move(from, oldName, to, newName), w', Number(RECORD), roomy)
    requires from in w && w[from].Folder? && to in w && w[to].Folder?
    requires from != to || newName != oldName ==> from !in Named(w, to, newName) && to !in Named(w, to, newName)
    ensures from in w' && w'[from].Folder? && to in w' && w'[to].Folder?
    ensures oldName in w[from].entries && newName in w'[to].entries
    ensures w'[to].entries[newName] == w[from].entries[oldName]
    ensures from != to || oldName != newName ==> oldName !in w'[from].entries
  {
    hide Named;
  }

  /** After a rename the new name leads where the old one led, and the old one nowhere. */
  lemma MoveThenFind(g: Geometry, n: Snap, from: nat, oldName: Name, to: nat, newName: Name, n0: Snap, n1: Snap,
    n2: Snap, n3: Snap, o0: Output, o1: Output, o2: Output, o3: Output)
    requires g.Ok() && Explains(g, n, Find(from, oldName), n0, o0)
    requires Explains(g, n, Move(from, oldName, to, newName), n1, o1) && o1 == Number(RECORD)
    requires Explains(g, n1, Find(to, newName), n2, o2) && Explains(g, n1, Find(from, oldName), n3, o3)
    ensures o2 == o0 && o0 != Number(-1) && (from != to || oldName != newName ==> o3 == Number(-1))
  {
    hide WorldOf, Explains;
    MovedEntries(g, n, from, oldName, to, newName, n1);
    Finds(g, n, from, oldName, n0, o0);
    Finds(g, n1, to, newName, n2, o2);
    Finds(g, n1, from, oldName, n3, o3);
  }

  /** What removing a directory does. */
  lemma RemovesFolder(g: Geometry, n: Snap, d: nat, name: Name, n': Snap, o: Output)
    requires g.Ok() && Explains(g, n, RemoveFolder(d, name), n', o)
    requires var w := WorldOf(g, n.s); d in w && w[d].Folder? && d !in Named(w, d, name)
    ensures var w, w' := WorldOf(g, n.s), WorldOf(g, n'.s);
      && o == Number(RemoveAnswer(w, d, name))
      && w' == if RemoveAnswer(w, d, name) == 0 then (w - Named(w, d, name))[d := Folder(Entries(w, d) - {name})] else w
  {
    hide WorldOf, Roomy, RemoveAnswer, Named, Entries, Fit;
    RemovalFits(g, n, d, name);
  }

  lemma RemovalFits(g: Geometry, n: Snap, d: nat, name: Name)
    requires g.Ok()
    requires var w := WorldOf(g, n.s); d in w && w[d].Folder? && d !in Named(w, d, name)
    ensures Fit(g, n.s, RemoveFolder(d, name))
  {
    hide WorldOf, Target, Named;
    BytesAre(g, n, d);
    Kinds(g, n, d);
    TargetNamed(g, n.s, d, name);
  }

  /** What making a directory does. */
  lemma MakesDir(g: Geometry, n: Snap, d: nat, name: Name, n': Snap) returns (ino: u32)
    requires g.Ok() && Explains(g, n, MakeDir(d, name), n', Number(0))
    ensures d < U32 && Made(WorldOf(g, n.s), WorldOf(g, n'.s), d, name, ino, Folder(map[DOT := ino, DOTDOT := d]))
    ensures WorldOf(g, n.s)[d].Folder?
  {
    hide WorldOf, Roomy, Made, Entries;
    Kinds(g, n, d);
    ino :| Made(WorldOf(g, n.s), WorldOf(g, n'.s), d, name, ino, Folder(map[DOT := ino, DOTDOT := d]));
  }

  /** A directory just made can be removed again. */
  lemma MakeDirThenRemove(g: Geometry, n: Snap, d: nat, name: Name, n1: Snap, n2: Snap, o1: Output, o2: Output)
    requires g.Ok() && Explains(g, n, MakeDir(d, name), n1, o1) && o1 == Number(0)
    requires Explains(g, n1, RemoveFolder(d, name), n2, o2)
    ensures o2 == Number(0) && WorldOf(g, n2.s).Keys == WorldOf(g, n.s).Keys
  {
    hide WorldOf, Explains, RemoveAnswer, Named, Made;
    var w, w1 := WorldOf(g, n.s), WorldOf(g, n1.s);
    var ino := MakesDir(g, n, d, name, n1);
    MadeIn(w, w1, d, name, ino);
    Removable(w1, d, name, ino);
    RemovesFolder(g, n1, d, name, n2, o2);
  }

  lemma MadeIn(w: World, w': World, d: nat, name: Name, ino: u32)
    requires d < U32 && Made(w, w', d, name, ino, Folder(map[DOT := ino, DOTDOT := d])) && w[d].Folder?
    ensures d in w && d != ino && ino !in w && w'.Keys == w.Keys + {ino} && w'[d].Folder? && w'[ino].Folder?
    ensures name in w'[d].entries && w'[d].entries[name] == ino && w'[ino].entries.Keys == {DOT, DOTDOT}
  {
  }

  lemma Removable(w: World, d: nat, name: Name, i: nat)
    requires d in w && w[d].Folder? && name in w[d].entries && w[d].entries[name] == i && i in w && w[i].Folder?
    requires w[i].entries.Keys == {DOT, DOTDOT}
    ensures RemoveAnswer(w, d, name) == 0 && Named(w, d, name) == {i}
  {
    assert |w[i].entries| == |w[i].entries.Keys| == 2;
  }

  /** A directory that lists something besides itself and its parent is not removed. */
  lemma FullFolderStays(g: Geometry, n: Snap, d: nat, name: Name, n': Snap, o: Output, i: nat, x: Name)
    requires g.Ok() && Explains(g, n, RemoveFolder(d, name), n', o) && d != i
    requires var w := WorldOf(g, n.s);
      && d in w && w[d].Folder? && name in w[d].entries && w[d].entries[name] == i && i in w && w[i].Folder?
      && {DOT, DOTDOT, x} <= w[i].entries.Keys && x != DOT && x != DOTDOT
    ensures o == Number(-ENOTEMPTY) && WorldOf(g, n'.s) == WorldOf(g, n.s)
  {
    hide WorldOf, Explains, RemoveAnswer, Named;
    NotRemovable(WorldOf(g, n.s), d, name, i, x);
    RemovesFolder(g, n, d, name, n', o);
  }

  lemma NotRemovable(w: World, d: nat, name: Name, i: nat, x: Name)
    requires d in w && w[d].Folder? && name in w[d].entries && w[d].entries[name] == i && i in w && w[i].Folder?
    requires {DOT, DOTDOT, x} <= w[i].entries.Keys && x != DOT && x != DOTDOT
    ensures RemoveAnswer(w, d, name) == -ENOTEMPTY && Named(w, d, name) == {i}
  {
    SubsetSize({DOT, DOTDOT, x}, w[i].entries.Keys);
    assert |w[i].entries| == |w[i].entries.Keys| && |{DOT, DOTDOT, x}| == 3;
  }
}
