/** Whole runs of MyFS against the specification: files are byte strings, directories are maps. */
module FsRun {
  import opened Common
  import opened Bytes
  import FsTable
  import opened FsNames
  import opened FsRecords
  import opened FsLayout
  import opened FsSpace
  import opened FsVolume
  import opened FsFile
  import opened FsInode
  import opened FsDir
  import opened FsTree
  import FsFormat

  datatype Node = File(content: seq<byte>) | Folder(entries: map<Name, u32>)

  /** The specification state: what each inode number stands for. */
  type World = map<nat, Node>

  datatype Event =
    | Read(ino: nat, offset: nat, count: nat)
    | Write(ino: nat, offset: nat, data: seq<byte>)
    | Find(d: nat, name: Name)
    | MakeFile(d: nat, name: Name)
    | MakeDir(d: nat, name: Name)
    | Remove(d: nat, name: Name)
    | RemoveFolder(d: nat, name: Name)
    | Move(from: nat, oldName: Name, to: nat, newName: Name)

  datatype Output = Refused | Data(bytes: seq<byte>) | Number(n: int)

  /** A volume between two operations: disk and inodes, block bitmap, number of inodes. */
  datatype Snap = Snap(s: Store, bits: seq<bool>, inodes: nat)

  ghost function SnapOf(v: Volume): Snap
    reads v
  {
    Snap(v.St(), v.bits, |v.inodeBits|)
  }

  ghost function NodeOf(g: Geometry, s: Store, i: nat): Node
    requires g.Ok() && i in s.nodes
  {
    if s.nodes[i].kind == Regular then File(Content(g, s, i)) else Folder(Listing(g, s, i))
  }

  ghost function WorldOf(g: Geometry, s: Store): (w: World)
    requires g.Ok()
    ensures w.Keys == s.nodes.Keys && forall i :: i in s.nodes ==> w[i] == NodeOf(g, s, i)
  {
    map i | i in s.nodes :: NodeOf(g, s, i)
  }

  predicate NameOk(name: Name) {
    NoNul(name) && |name| < NAME
  }

  /** A read whose sum does not wrap into the file. */
  predicate ReadOk(size: nat, offset: nat, count: nat) {
    offset < U32 && count < U32 && (offset >= size || offset + count < U32 || (offset + count) % U32 > size)
  }

  /** The calls the code is made for: existing inodes of the right kind, sums that do not wrap,
      names that fit, and no directory that names itself as a target. */
  ghost predicate Fit(g: Geometry, s: Store, e: Event)
    requires g.Ok()
  {
    match e
    case Read(i, off, n) => i in s.nodes && s.nodes[i].kind == Regular && ReadOk(s.nodes[i].size, off, n)
    case Write(i, off, data) => i in s.nodes && s.nodes[i].kind == Regular && off + |data| + g.blockBytes <= U32
    case Find(d, _) => IsDir(s, d)
    case MakeFile(d, name) => IsDir(s, d) && NameOk(name)
    case MakeDir(d, name) => IsDir(s, d) && NameOk(name)
    case Remove(d, name) => IsDir(s, d) && d !in Target(g, s, d, name)
    case RemoveFolder(d, name) => IsDir(s, d) && d !in Target(g, s, d, name)
    case Move(from, oldName, to, newName) =>
      && IsDir(s, from) && IsDir(s, to) && NameOk(newName)
      && (from != to || newName != oldName ==> from !in Target(g, s, to, newName) && to !in Target(g, s, to, newName))
  }

  /** Whether an event that fits finds the inode number, the blocks and the tables it needs. */
  ghost predicate Roomy(g: Geometry, n: Snap, e: Event)
    requires g.Ok() && Fit(g, n.s, e)
  {
    var free := |Free(g, n.bits)|;
    match e
    case Write(i, off, data) => data == [] || RoomFor(g, n.s, free, i, BlocksOf(off + |data|, g.blockBytes))
    case MakeFile(d, _) => CreateFits(g, n.s, free, n.inodes, d)
    case MakeDir(d, _) => CreateFits(g, n.s, free, n.inodes, d)
    case Move(from, _, to, newName) => RenameFits(g, n.s, n.bits, from, to, newName)
    case _ => true
  }

  predicate IsDir(s: Store, d: nat) {
    d in s.nodes && s.nodes[d].kind == Directory
  }

  function Entries(w: World, d: nat): map<Name, u32> {
    if d in w && w[d].Folder? then w[d].entries else map[]
  }

  /** The inode an entry names, if it exists. */
  function Named(w: World, d: nat, name: Name): set<nat> {
    var m := Entries(w, d);
    if name in m && m[name] in w then {m[name]} else {}
  }

  /** Only a directory with at most two entries, `.` and `..`, can be removed. */
  function RemoveAnswer(w: World, d: nat, name: Name): int {
    var m := Entries(w, d);
    if name !in m || m[name] !in w then -ENOENT
    else if w[m[name]].File? then -ENOTDIR
    else if |w[m[name]].entries| > 2 then -ENOTEMPTY
    else 0
  }

  /** Every directory after a move, and after one that failed for lack of space. */
  function AfterMove(n: Node, d: nat, from: nat, oldName: Name, to: nat, newName: Name, ino: u32): Node {
    if n.Folder? then Folder(Moved(n.entries, d, from, oldName, to, newName, ino)) else n
  }

  function AfterLoss(n: Node, d: nat, from: nat, oldName: Name, to: nat, newName: Name): Node {
    if n.Folder? then Folder(Stripped(n.entries, d, from, oldName, to, newName)) else n
  }

  /** The data is in file `i`; nothing else changed. */
  ghost predicate Written(w: World, w': World, i: nat, off: nat, data: seq<byte>) {
    && i in w && w[i].File? && i in w' && w'[i].File?
    && w' == w[i := w'[i]] && Overlaid(w[i].content, off, data, w'[i].content)
  }

  /** A new inode under a new name, with the least number not in use. */
  ghost predicate Made(w: World, w': World, d: nat, name: Name, ino: nat, n: Node) {
    && ino !in w && ino < U32 && (forall i: nat :: i < ino ==> i in w)
    && d in w && w' == w[d := Folder(Entries(w, d)[name := ino])][ino := n]
  }

  /** One step of the specification, for an event that fits. It has one outcome: with room the event
      is done, without it fails. */
  ghost predicate Step(w: World, e: Event, w': World, o: Output, roomy: bool) {
    match e
    case Read(i, off, n) => w' == w && i in w && w[i].File? && o == Data(Slice(w[i].content, off, n))
    case Write(i, off, data) =>
      && i in w && w[i].File?
      && if roomy then o == Number(|data|) && Written(w, w', i, off, data) else o == Number(-1) && w' == w
    case Find(d, name) => w' == w && o == Number(if name in Entries(w, d) then Entries(w, d)[name] else -1)
    case MakeFile(d, name) =>
      if name in Entries(w, d) then o == Number(-EEXIST) && w' == w
      else if roomy then o == Number(0) && exists ino :: Made(w, w', d, name, ino, File([]))
      else o == Number(-1) && w' == w
    case MakeDir(d, name) =>
      && d < U32
      && if name in Entries(w, d) then o == Number(-EEXIST) && w' == w
         else if roomy then o == Number(0) && exists ino: u32 ::
           Made(w, w', d, name, ino, Folder(map[DOT := ino, DOTDOT := d]))
         else o == Number(-1) && w' == w
    case Remove(d, name) =>
      if name !in Entries(w, d) then o == Number(-ENOENT) && w' == w
      else o == Number(0) && w' == (w - Named(w, d, name))[d := Folder(Entries(w, d) - {name})]
    case RemoveFolder(d, name) =>
      && o == Number(RemoveAnswer(w, d, name))
      && w' == if RemoveAnswer(w, d, name) == 0 then (w - Named(w, d, name))[d := Folder(Entries(w, d) - {name})] else w
    case Move(from, oldName, to, newName) =>
      if oldName !in Entries(w, from) then o == Number(-1) && w' == w
      else
        var ino := Entries(w, from)[oldName];
        var rest := w - if from == to && newName == oldName then {} else Named(w, to, newName);
        if roomy then o == Number(RECORD) && w' == map d | d in rest ::
          AfterMove(rest[d], d, from, oldName, to, newName, ino)
        else o == Number(-1) && w' == map d | d in rest :: AfterLoss(rest[d], d, from, oldName, to, newName)
  }

  lemma SameNode(g: Geometry, s: Store, s': Store, i: nat)
    requires g.Ok() && SameFile(g, s, s', i)
    ensures NodeOf(g, s', i) == NodeOf(g, s, i)
  {
  }

  lemma SameWorld(g: Geometry, s: Store, s': Store)
    requires g.Ok() && AllSame(g, s, s')
    ensures WorldOf(g, s') == WorldOf(g, s)
  {
    hide Content, Listing;
    forall i | i in s.nodes ensures NodeOf(g, s', i) == NodeOf(g, s, i) { SameNode(g, s, s', i); }
  }

  lemma WrittenWorld(g: Geometry, s: Store, s': Store, ino: nat, content: seq<byte>)
    requires g.Ok() && ino in s.nodes && s'.nodes.Keys == s.nodes.Keys && s'.nodes[ino].kind == Regular
    requires Content(g, s', ino) == content && forall i :: i in s.nodes && i != ino ==> SameFile(g, s, s', i)
    ensures WorldOf(g, s') == WorldOf(g, s)[ino := File(content)]
  {
    hide Content, Listing;
    forall i | i in s.nodes && i != ino ensures NodeOf(g, s', i) == NodeOf(g, s, i) { SameNode(g, s, s', i); }
  }

  lemma ListedAs(g: Geometry, s: Store, d: nat)
    requires g.Ok() && IsDir(s, d)
    ensures Entries(WorldOf(g, s), d) == Listing(g, s, d)
  {
  }

  lemma TargetNamed(g: Geometry, s: Store, d: nat, name: Name)
    requires g.Ok() && IsDir(s, d)
    ensures Named(WorldOf(g, s), d, name) == Target(g, s, d, name)
  {
    hide Content, Listing;
    ListedAs(g, s, d);
  }

  lemma MadeWorld(g: Geometry, s: Store, s': Store, d: nat, name: Name, ino: nat, kind: Kind, listing: map<Name, u32>)
    requires g.Ok() && IsDir(s, d) && Created(g, s, s', d, name, ino, kind, listing) && forall i: nat :: i < ino ==>
      i in s.nodes
    ensures Made(WorldOf(g, s), WorldOf(g, s'), d, name, ino, NodeOf(g, s', ino))
  {
    hide Content, Listing;
    ListedAs(g, s, d);
    forall i | i in s.nodes && i != d ensures NodeOf(g, s', i) == NodeOf(g, s, i) { SameNode(g, s, s', i); }
  }

  lemma MadeFolder(g: Geometry, s: Store, s': Store, d: u32, name: Name, ino: u32)
    requires g.Ok() && IsDir(s, d) && Created(g, s, s', d, name, ino, Directory, map[DOT := ino, DOTDOT := d])
      && forall i: nat :: i < ino ==> i in s.nodes
    ensures Made(WorldOf(g, s), WorldOf(g, s'), d, name, ino, Folder(map[DOT := ino, DOTDOT := d]))
  {
    hide Content, Listing, Made;
    MadeWorld(g, s, s', d, name, ino, Directory, map[DOT := ino, DOTDOT := d]);
  }

  lemma NothingRemoved(w: World, d: nat, name: Name)
    requires d in w && w[d].Folder? && name !in Entries(w, d)
    ensures (w - Named(w, d, name))[d := Folder(Entries(w, d) - {name})] == w
  {
    assert Entries(w, d) - {name} == Entries(w, d);
  }

  lemma RemovedWorld(g: Geometry, s: Store, s': Store, d: nat, name: Name)
    requires g.Ok() && IsDir(s, d) && Unlinked(g, s, s', d, name, Target(g, s, d, name))
    ensures var w := WorldOf(g, s);
      WorldOf(g, s') == (w - Named(w, d, name))[d := Folder(Entries(w, d) - {name})]
  {
    hide Content, Listing, Target, Named;
    ListedAs(g, s, d);
    TargetNamed(g, s, d, name);
    forall i | i in s'.nodes && i != d ensures NodeOf(g, s', i) == NodeOf(g, s, i) { SameNode(g, s, s', i); }
  }

  lemma MovedNode(g: Geometry, s: Store, s': Store, from: nat, oldName: Name, to: nat, newName: Name, ino: u32,
    gone: set<nat>, i: nat)
    requires g.Ok() && IsDir(s, from) && IsDir(s, to) && i in s'.nodes
    requires Renamed(g, s, s', from, oldName, to, newName, ino, gone)
    ensures NodeOf(g, s', i) == AfterMove(NodeOf(g, s, i), i, from, oldName, to, newName, ino)
  {
    hide Content, Listing, Moved;
    if i != from && i != to { SameNode(g, s, s', i); }
  }

  lemma LostNode(g: Geometry, s: Store, s': Store, from: nat, oldName: Name, to: nat, newName: Name, gone: set<nat>,
    i: nat)
    requires g.Ok() && IsDir(s, from) && IsDir(s, to) && i in s'.nodes
    requires Lost(g, s, s', from, oldName, to, newName, gone)
    ensures NodeOf(g, s', i) == AfterLoss(NodeOf(g, s, i), i, from, oldName, to, newName)
  {
    hide Content, Listing, Stripped;
    if i != from && i != to { SameNode(g, s, s', i); }
  }

  lemma MovedWorld(g: Geometry, s: Store, s': Store, from: nat, oldName: Name, to: nat, newName: Name, ino: u32,
    gone: set<nat>)
    requires g.Ok() && IsDir(s, from) && IsDir(s, to) && Renamed(g, s, s', from, oldName, to, newName, ino, gone)
    ensures var rest := WorldOf(g, s) - gone;
      WorldOf(g, s') == map d | d in rest :: AfterMove(rest[d], d, from, oldName, to, newName, ino)
  {
    hide NodeOf, AfterMove;
    forall i | i in s'.nodes
      ensures NodeOf(g, s', i) == AfterMove(NodeOf(g, s, i), i, from, oldName, to, newName, ino) {
      MovedNode(g, s, s', from, oldName, to, newName, ino, gone, i);
    }
  }

  lemma LostWorld(g: Geometry, s: Store, s': Store, from: nat, oldName: Name, to: nat, newName: Name, gone: set<nat>)
    requires g.Ok() && IsDir(s, from) && IsDir(s, to) && Lost(g, s, s', from, oldName, to, newName, gone)
    ensures var rest := WorldOf(g, s) - gone;
      WorldOf(g, s') == map d | d in rest :: AfterLoss(rest[d], d, from, oldName, to, newName)
  {
    hide NodeOf, AfterLoss;
    forall i | i in s'.nodes ensures NodeOf(g, s', i) == AfterLoss(NodeOf(g, s, i), i, from, oldName, to, newName) {
      LostNode(g, s, s', from, oldName, to, newName, gone, i);
    }
  }

  /** Whether the event fits; the entries it depends on are looked up. */
  method Check(v: Volume, e: Event) returns (fit: bool)
    requires FsOk(v)
    ensures fit == Fit(v.geo, v.St(), e)
  {
    hide Content, Listing;
    match e
    case Read(i, off, n) => fit := i in v.nodes && v.nodes[i].kind == Regular && ReadOk(v.nodes[i].size, off, n);
    case Write(i, off, data) =>
      fit := i in v.nodes && v.nodes[i].kind == Regular && off + |data| + v.geo.blockBytes <= U32;
    case Find(d, _) => fit := d in v.nodes && v.nodes[d].kind == Directory;
    case MakeFile(d, name) =>
      fit := d in v.nodes && v.nodes[d].kind == Directory && NameOk(name);
    case MakeDir(d, name) =>
      fit := d in v.nodes && v.nodes[d].kind == Directory && NameOk(name);
    case Remove(d, name) =>
      fit := d in v.nodes && v.nodes[d].kind == Directory;
      if fit {
        var ino := Lookup(v, d, name);
        fit := ino != d;
      }
    case RemoveFolder(d, name) =>
      fit := d in v.nodes && v.nodes[d].kind == Directory;
      if fit {
        var ino := Lookup(v, d, name);
        fit := ino != d;
      }
    case Move(from, oldName, to, newName) =>
      fit := from in v.nodes && to in v.nodes && v.nodes[from].kind == Directory && v.nodes[to].kind == Directory
        && NameOk(newName);
      if fit && (from != to || newName != oldName) {
        var ino := Lookup(v, to, newName);
        fit := ino != from && ino != to;
      }
  }

  /** What one event does: nothing if it does not fit, else the one step of the specification that
      the room on the volume decides. */
  ghost predicate Explains(g: Geometry, n: Snap, e: Event, n': Snap, o: Output)
    requires g.Ok()
  {
    if Fit(g, n.s, e) then Step(WorldOf(g, n.s), e, WorldOf(g, n'.s), o, Roomy(g, n, e)) else o == Refused && n' == n
  }

  method DoRead(v: Volume, e: Event) returns (o: Output)
    requires FsOk(v) && e.Read? && Fit(v.geo, v.St(), e)
    ensures Step(WorldOf(v.geo, v.St()), e, WorldOf(v.geo, v.St()), o, true)
  {
    hide Content, Listing, Slice;
    var bytes := NodeRead(v, e.ino, e.offset, e.count);
    o := Data(bytes);
  }

  method DoWrite(v: Volume, e: Event) returns (o: Output)
    requires FsOk(v) && e.Write? && Fit(v.geo, v.St(), e)
    modifies v
    ensures FsOk(v) && Step(WorldOf(v.geo, old(v.St())), e, WorldOf(v.geo, v.St()), o, old(Roomy(v.geo, SnapOf(v), e)))
  {
    hide Content, DirsOk, AllDense, Linked, Bitmapped, RoomFor, Free, Enlarged, Overlaid, PathOf;
    ghost var s := v.St();
    var r := NodeWrite(v, e.ino, e.offset, e.data);
    WrittenDirs(v.geo, s, v.St(), e.ino);
    if r == -1 { SameWorld(v.geo, s, v.St()); } else {
      WrittenWorld(v.geo, s, v.St(), e.ino, Content(v.geo, v.St(), e.ino));
    }
    o := Number(r);
  }

  lemma WrittenDirs(g: Geometry, s: Store, s': Store, ino: nat)
    requires g.Ok() && DirsOk(g, s) && ino in s.nodes && s'.nodes.Keys == s.nodes.Keys && s'.nodes[ino].kind == Regular
    requires forall i :: i in s.nodes && i != ino ==> SameFile(g, s, s', i)
    ensures DirsOk(g, s')
  {
    hide Content, DirOk;
    forall d | d in s'.nodes && s'.nodes[d].kind == Directory
      ensures DirOk(Content(g, s', d)) { assert SameFile(g, s, s', d); }
  }

  method DoFind(v: Volume, e: Event) returns (o: Output)
    requires FsOk(v) && e.Find? && Fit(v.geo, v.St(), e)
    ensures Step(WorldOf(v.geo, v.St()), e, WorldOf(v.geo, v.St()), o, true)
  {
    hide Content, Listing, Entries;
    ListedAs(v.geo, v.St(), e.d);
    var r := Lookup(v, e.d, e.name);
    o := Number(r);
  }

  method DoMakeFile(v: Volume, e: Event) returns (o: Output)
    requires FsOk(v) && e.MakeFile? && Fit(v.geo, v.St(), e)
    modifies v
    ensures FsOk(v) && Step(WorldOf(v.geo, old(v.St())), e, WorldOf(v.geo, v.St()), o, old(Roomy(v.geo, SnapOf(v), e)))
  {
    hide Content, Listing, Entries, Made, DirsOk, AllSame, AllDense, Linked, Bitmapped;
    ghost var s := v.St();
    ListedAs(v.geo, s, e.d);
    var r, ino := CreateFile(v, e.d, e.name);
    if r == 0 {
      MadeWorld(v.geo, s, v.St(), e.d, e.name, ino, Regular, map[]);
    } else {
      SameWorld(v.geo, s, v.St());
    }
    o := Number(r);
  }

  method DoMakeDir(v: Volume, e: Event) returns (o: Output)
    requires FsOk(v) && e.MakeDir? && Fit(v.geo, v.St(), e)
    modifies v
    ensures FsOk(v) && Step(WorldOf(v.geo, old(v.St())), e, WorldOf(v.geo, v.St()), o, old(Roomy(v.geo, SnapOf(v), e)))
  {
    hide Content, Listing, Entries, Made, DirsOk, AllSame, AllDense, Linked, Bitmapped;
    ghost var s := v.St();
    ListedAs(v.geo, s, e.d);
    var r, ino := CreateDir(v, e.d, e.name);
    if r == 0 {
      MadeFolder(v.geo, s, v.St(), e.d, e.name, ino);
    } else {
      SameWorld(v.geo, s, v.St());
    }
    o := Number(r);
  }

  method DoRemove(v: Volume, e: Event) returns (o: Output)
    requires FsOk(v) && e.Remove? && Fit(v.geo, v.St(), e)
    modifies v
    ensures FsOk(v) && Step(WorldOf(v.geo, old(v.St())), e, WorldOf(v.geo, v.St()), o, true)
  {
    hide Content, Listing, Entries, Named, Target, DirsOk;
    ghost var s := v.St();
    ListedAs(v.geo, s, e.d);
    var r := Unlink(v, e.d, e.name);
    RemovedWorld(v.geo, s, v.St(), e.d, e.name);
    if e.name !in Listing(v.geo, s, e.d) { NothingRemoved(WorldOf(v.geo, s), e.d, e.name); }
    o := Number(r);
  }

  lemma SameAnswer(g: Geometry, s: Store, d: nat, name: Name)
    requires g.Ok() && IsDir(s, d)
    ensures RemoveAnswer(WorldOf(g, s), d, name) == RemoveDirResult(g, s, d, name)
  {
    hide Content, Listing, Entries;
    ListedAs(g, s, d);
  }

  method DoRemoveFolder(v: Volume, e: Event) returns (o: Output)
    requires FsOk(v) && e.RemoveFolder? && Fit(v.geo, v.St(), e)
    modifies v
    ensures FsOk(v) && Step(WorldOf(v.geo, old(v.St())), e, WorldOf(v.geo, v.St()), o, true)
  {
    hide Content, Listing, Entries, Named, Target, DirsOk, RemoveAnswer, RemoveDirResult;
    ghost var s := v.St();
    SameAnswer(v.geo, s, e.d, e.name);
    var r := RemoveDir(v, e.d, e.name);
    if r == 0 { RemovedWorld(v.geo, s, v.St(), e.d, e.name); }
    o := Number(r);
  }

  method DoMove(v: Volume, e: Event) returns (o: Output)
    requires FsOk(v) && e.Move? && Fit(v.geo, v.St(), e)
    modifies v
    ensures FsOk(v) && Step(WorldOf(v.geo, old(v.St())), e, WorldOf(v.geo, v.St()), o, old(Roomy(v.geo, SnapOf(v), e)))
  {
    hide Content, Listing, Entries, Named, Target, AfterMove, AfterLoss, NodeOf, DirsOk, Renamed, Lost, AllDense,
      Linked, Bitmapped;
    ghost var s := v.St();
    ListedAs(v.geo, s, e.from);
    TargetNamed(v.geo, s, e.to, e.newName);
    var r := Rename(v, e.from, e.oldName, e.to, e.newName);
    o := Number(r);
    if e.oldName in Listing(v.geo, s, e.from) {
      ghost var ino := Listing(v.geo, s, e.from)[e.oldName];
      ghost var gone := if e.from == e.to && e.newName == e.oldName then {} else Target(v.geo, s, e.to, e.newName);
      if r == RECORD {
        MovedWorld(v.geo, s, v.St(), e.from, e.oldName, e.to, e.newName, ino, gone);
      } else {
        LostWorld(v.geo, s, v.St(), e.from, e.oldName, e.to, e.newName, gone);
      }
    }
  }

  method DoEvent(v: Volume, e: Event) returns (o: Output)
    requires FsOk(v)
    modifies v
    ensures FsOk(v) && Explains(v.geo, old(SnapOf(v)), e, SnapOf(v), o)
  {
    hide Step, Fit, WorldOf, DirsOk, Mounted, Free, RoomFor, CreateFits, RenameFits;
    var fit := Check(v, e);
    if !fit { return Refused; }
    match e
    case Read(_, _, _) => o := DoRead(v, e);
    case Write(_, _, _) => o := DoWrite(v, e);
    case Find(_, _) => o := DoFind(v, e);
    case MakeFile(_, _) => o := DoMakeFile(v, e);
    case MakeDir(_, _) => o := DoMakeDir(v, e);
    case Remove(_, _) => o := DoRemove(v, e);
    case RemoveFolder(_, _) => o := DoRemoveFolder(v, e);
    case Move(_, _, _, _) => o := DoMove(v, e);
  }

  /** Every run of the file system, from any sound volume, is a run of the specification: the
      blocks, indirect tables, bitmaps and directory records never show. */
  method Run(v: Volume, events: seq<Event>) returns (outs: seq<Output>, ghost trace: seq<Snap>)
    requires FsOk(v)
    modifies v
    ensures FsOk(v) && |outs| == |events| && |trace| == |events| + 1
    ensures trace[0] == old(SnapOf(v)) && trace[|events|] == SnapOf(v)
    ensures forall k :: 0 <= k < |events| ==> Explains(v.geo, trace[k], events[k], trace[k + 1], outs[k])
  {
    hide Explains, DirsOk;
    outs, trace := [], [SnapOf(v)];
    while |outs| < |events|
      invariant FsOk(v) && |outs| <= |events| && |trace| == |outs| + 1
      invariant trace[0] == old(SnapOf(v)) && trace[|outs|] == SnapOf(v)
      invariant forall k :: 0 <= k < |outs| ==> Explains(v.geo, trace[k], events[k], trace[k + 1], outs[k])
    {
      var o := DoEvent(v, events[|outs|]);
      outs, trace := outs + [o], trace + [SnapOf(v)];
    }
  }

  /** A freshly formatted volume is the specification's initial state: an empty root directory. */
  method Start(dev: seq<Block>, maxSectors: nat) returns (v: Volume, ok: bool)
    requires maxSectors < U32 && FsFormat.LayoutOf(maxSectors).totalInodes * FsTable.INODE + FsFormat.BLOCK_BYTES <= U32
    requires FsFormat.LayoutOf(maxSectors).totalBlocks >= 61 && FsFormat.LayoutOf(maxSectors).totalBlocks % 8 == 0
    requires |dev| == FsFormat.LayoutOf(maxSectors).totalBlocks && forall b :: 0 <= b < |dev| ==>
      |dev[b]| == FsFormat.BLOCK_BYTES
    ensures fresh(v) && FsOk(v)
    ensures ok && WorldOf(v.geo, v.St()) == map[0 := Folder(map[DOT := 0, DOTDOT := 0])]
  {
    hide FsFormat.LayoutOf, Content, Listing;
    v, ok := FsFormat.Format(dev, maxSectors);
  }
}
