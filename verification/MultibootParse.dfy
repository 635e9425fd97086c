/** The kernel's early parser of the Multiboot2 block, and the round trip with the writer. */
module MultibootParse {
  import opened Common
  import opened Bytes
  import opened Multiboot

  /** What the kernel knows after parsing. */
  datatype Info = Info(cmdline: Str, modules: seq<Module>, regions: seq<Region>)

  /** Parser state: the information so far, and the bytes taken from the early allocator. */
  datatype Progress = Progress(info: Info, used: nat, ok: bool)

  const START := Progress(Info([], [], []), INFO, true)

  /** early_alloc. */
  function Alloc(p: Progress, n: nat): Progress {
    if p.ok && p.used + n < EARLY then p.(used := p.used + n) else p.(ok := false)
  }

  function Capped(rs: seq<Region>): seq<Region> {
    if |rs| <= MAX_REGIONS then rs else rs[..MAX_REGIONS]
  }

  /** The effect of one tag: modules are prepended, regions beyond the limit are dropped. */
  function Take(p: Progress, t: Tag): Progress {
    match t
    case Cmdline(s) =>
      var a := Alloc(p, |s| + 1);
      if a.ok then a.(info := a.info.(cmdline := s)) else a
    case Mod(m) =>
      var a := Alloc(Alloc(p, RECORD), |m.path| + 1);
      if a.ok then a.(info := a.info.(modules := [m] + a.info.modules)) else a
    case Mmap(rs) => p.(info := p.info.(regions := Capped(p.info.regions + rs)))
    case End => p
  }

  function TakeAll(tags: seq<Tag>): Progress {
    if tags == [] then START else Take(TakeAll(tags[..|tags| - 1]), tags[|tags| - 1])
  }

  function TypeOf(t: Tag): nat {
    match t
    case Cmdline(_) => TAG_CMDLINE
    case Mod(_) => TAG_MODULE
    case Mmap(_) => TAG_MMAP
    case End => TAG_END
  }

  /** The first two words of a tag. */
  lemma TagWords(buf: seq<byte>, at: nat, t: Tag)
    requires TagOk(t) && Holds(buf, at, Body(t))
    ensures at + 8 <= |buf| && Word(buf, at) == TypeOf(t) && Word(buf, at + 4) == TagSize(t)
  {
    var b := Body(t);
    var w, x := WordBytes(TypeOf(t)), WordBytes(TagSize(t));
    assert b == w + (x + b[8..]);
    HoldsPart(buf, at, w, x + b[8..]);
    HoldsPart(buf, at + 4, x, b[8..]);
    HoldsWord(buf, at, TypeOf(t));
    HoldsWord(buf, at + 4, TagSize(t));
  }

  /** strlen, and the copy that follows it. */
  method ReadString(buf: seq<byte>, at: nat, ghost s: Str) returns (r: Str)
    requires Clean(s) && Holds(buf, at, s + [0])
    ensures r == s
  {
    ghost var z := s + [0];
    ghost var w := buf[at..at + |z|];
    forall i | 0 <= i < |z| ensures buf[at + i] == z[i] { assert w[i] == z[i]; }
    var n := 0;
    while buf[at + n] != 0
      invariant 0 <= n <= |s|
      invariant forall i :: 0 <= i < |z| ==> buf[at + i] == z[i]
      decreases |s| - n
    {
      n := n + 1;
    }
    r := buf[at..at + n];
    assert n == |s|;
    assert r == z[..n];
  }

  lemma ModFields(buf: seq<byte>, at: nat, m: Module)
    requires TagOk(Mod(m)) && Holds(buf, at, Body(Mod(m)))
    ensures at + 16 <= |buf| && Word(buf, at + 8) == m.start && Word(buf, at + 12) == ModEnd(m)
    ensures Holds(buf, at + 16, m.path + [0])
  {
    var b := Body(Mod(m));
    var x, y, z := WordBytes(m.start), WordBytes(ModEnd(m)), m.path + [0];
    assert b == b[..8] + (x + (y + z));
    HoldsPart(buf, at, b[..8], x + (y + z));
    HoldsPart(buf, at + 8, x, y + z);
    HoldsPart(buf, at + 12, y, z);
    HoldsWord(buf, at + 8, m.start);
    HoldsWord(buf, at + 12, ModEnd(m));
  }

  /** The size computed from start and end is the module's. */
  lemma SizeBack(m: Module)
    ensures (ModEnd(m) - m.start) % 0x1_0000_0000 == m.size
  {
  }

  lemma MapFields(buf: seq<byte>, at: nat, rs: seq<Region>)
    requires TagOk(Mmap(rs)) && Holds(buf, at, Body(Mmap(rs)))
    ensures at + 16 <= |buf| && Word(buf, at + 8) == ENTRY && Holds(buf, at + 16, RegionsBytes(rs))
  {
    var b := Body(Mmap(rs));
    var x, y, z := WordBytes(ENTRY), WordBytes(0), RegionsBytes(rs);
    assert b == b[..8] + (x + (y + z));
    HoldsPart(buf, at, b[..8], x + (y + z));
    HoldsPart(buf, at + 8, x, y + z);
    HoldsPart(buf, at + 12, y, z);
    HoldsWord(buf, at + 8, ENTRY);
  }

  lemma QuadBack(buf: seq<byte>, at: nat, q: nat)
    requires q < 0x1_0000_0000_0000_0000 && Holds(buf, at, QuadBytes(q))
    ensures at + 8 <= |buf| && Quad(buf, at) == q
  {
    HoldsPart(buf, at, WordBytes(q % 0x1_0000_0000), WordBytes(q / 0x1_0000_0000));
    HoldsWord(buf, at, q % 0x1_0000_0000);
    HoldsWord(buf, at + 4, q / 0x1_0000_0000);
  }

  lemma {:induction false} RegionHeld(buf: seq<byte>, at: nat, rs: seq<Region>, i: nat)
    requires (forall k :: 0 <= k < |rs| ==> Fits(rs[k])) && Holds(buf, at, RegionsBytes(rs)) && i < |rs|
    ensures Holds(buf, at + ENTRY * i, RegionBytes(rs[i]))
  {
    var r := rs[..|rs| - 1];
    HoldsPart(buf, at, RegionsBytes(r), RegionBytes(rs[|rs| - 1]));
    if i < |rs| - 1 { RegionHeld(buf, at, r, i); }
  }

  lemma RegionFields(buf: seq<byte>, at: nat, r: Region)
    requires Fits(r) && Holds(buf, at, RegionBytes(r))
    ensures at + 20 <= |buf| && Quad(buf, at) == r.base && Quad(buf, at + 8) == r.length && Word(buf, at + 16) == r.kind
  {
    var a, b, c := QuadBytes(r.base), QuadBytes(r.length), WordBytes(r.kind);
    assert RegionBytes(r) == a + (b + (c + WordBytes(0)));
    HoldsPart(buf, at, a, b + (c + WordBytes(0)));
    HoldsPart(buf, at + 8, b, c + WordBytes(0));
    HoldsPart(buf, at + 16, c, WordBytes(0));
    QuadBack(buf, at, r.base);
    QuadBack(buf, at + 8, r.length);
    HoldsWord(buf, at + 16, r.kind);
  }

  /** The loop over the entries of a memory map tag. */
  method ReadRegions(buf: seq<byte>, at: nat, known: seq<Region>, ghost rs: seq<Region>) returns (r: seq<Region>)
    requires TagOk(Mmap(rs)) && Holds(buf, at, Body(Mmap(rs))) && |known| <= MAX_REGIONS
    ensures r == Capped(known + rs)
  {
    hide Body, RegionsBytes, RegionBytes;
    TagWords(buf, at, Mmap(rs));
    MapFields(buf, at, rs);
    r := known;
    var entry, end, step := at + 16, at + Word(buf, at + 4), Word(buf, at + 8);
    ghost var i := 0;
    assert known + rs[..0] == known;
    while entry < end
      invariant 0 <= i <= |rs| && entry == at + 16 + ENTRY * i && r == Capped(known + rs[..i])
      decreases |rs| - i
    {
      RegionHeld(buf, at + 16, rs, i);
      RegionFields(buf, entry, rs[i]);
      assert known + rs[..i + 1] == known + rs[..i] + [rs[i]];
      if |r| < MAX_REGIONS { r := r + [Region(Quad(buf, entry), Quad(buf, entry + 8), Word(buf, entry + 16))]; }
      entry := entry + step;
      i := i + 1;
    }
    assert rs[..i] == rs;
  }

  method ReadCmdline(buf: seq<byte>, at: nat, p: Progress, ghost s: Str) returns (r: Progress)
    requires TagOk(Cmdline(s)) && Holds(buf, at, Body(Cmdline(s)))
    ensures r == Take(p, Cmdline(s))
  {
    ghost var b := Body(Cmdline(s));
    assert b == b[..8] + (s + [0]);
    HoldsPart(buf, at, b[..8], s + [0]);
    var text := ReadString(buf, at + 8, s);
    r := Alloc(p, |text| + 1);
    if r.ok { r := r.(info := r.info.(cmdline := text)); }
  }

  method ReadModule(buf: seq<byte>, at: nat, p: Progress, ghost m: Module) returns (r: Progress)
    requires TagOk(Mod(m)) && Holds(buf, at, Body(Mod(m)))
    ensures r == Take(p, Mod(m))
  {
    hide Body;
    ModFields(buf, at, m);
    SizeBack(m);
    r := Alloc(p, RECORD);
    var size := (Word(buf, at + 12) - Word(buf, at + 8)) % 0x1_0000_0000;
    var name := ReadString(buf, at + 16, m.path);
    r := Alloc(r, |name| + 1);
    if r.ok { r := r.(info := r.info.(modules := [Module(Word(buf, at + 8), size, name)] + r.info.modules)); }
  }

  /** One tag of the walk. */
  method ReadTag(buf: seq<byte>, at: nat, p: Progress, ghost t: Tag) returns (r: Progress, end: bool, next: nat)
    requires TagOk(t) && Holds(buf, at, Body(t)) && |p.info.regions| <= MAX_REGIONS
    ensures r == Take(p, t) && end == t.End? && next == at + Align(TagSize(t))
  {
    hide Body, Align;
    TagWords(buf, at, t);
    var kind := Word(buf, at);
    r, end, next := p, false, at + Align(Word(buf, at + 4));
    if kind == TAG_CMDLINE {
      r := ReadCmdline(buf, at, p, t.s);
    } else if kind == TAG_MODULE {
      r := ReadModule(buf, at, p, t.m);
    } else if kind == TAG_MMAP {
      var regions := ReadRegions(buf, at, p.info.regions, t.rs);
      r := p.(info := p.info.(regions := regions));
    } else if kind == TAG_END {
      end := true;
    }
  }

  /** A block as a writer leaves it: only the last tag is an end tag. */
  ghost predicate Block(buf: seq<byte>, tags: seq<Tag>) {
    && Laid(buf, 8, tags) && tags != [] && tags[|tags| - 1] == End
      && (forall k :: 0 <= k < |tags| - 1 ==> !tags[k].End?)
    && 8 <= |buf| && Word(buf, 0) == 8 + Span(tags)
  }

  lemma {:induction false} FewRegions(tags: seq<Tag>)
    ensures |TakeAll(tags).info.regions| <= MAX_REGIONS
  {
    if tags != [] { FewRegions(tags[..|tags| - 1]); }
  }

  /** parse_multiboot2_early: the walk reaches the end tag and has taken every tag before it. */
  method Parse(buf: seq<byte>, ghost tags: seq<Tag>) returns (r: Progress)
    requires Block(buf, tags)
    ensures r == TakeAll(tags)
  {
    hide Body, Align, TagSize, TagOk, Take, Span;
    assert tags[..0] == [];
    SpanStart();
    r := START;
    var at, total := 8, Word(buf, 0);
    ghost var k := 0;
    while at < total
      invariant 0 <= k < |tags| && at == 8 + Span(tags[..k]) && r == TakeAll(tags[..k])
      decreases |tags| - k
    {
      FewRegions(tags[..k]);
      var end;
      ghost var next := tags[..k + 1];
      assert next[..k] == tags[..k];
      r, end, at := ReadTag(buf, at, r, tags[k]);
      SpanNext(tags, k);
      if end {
        assert next == tags;
        return;
      }
      k := k + 1;
    }
    Before(tags, k);
  }

  lemma SpanStart()
    ensures Span([]) == 0
  {
  }

  /** The walk does not run past the total size before the last tag. */
  lemma Before(tags: seq<Tag>, k: nat)
    requires k < |tags|
    ensures Span(tags[..k]) < Span(tags)
  {
    SpanMono(tags, k);
  }

  function Reversed(ms: seq<Module>): seq<Module> {
    if ms == [] then [] else [ms[|ms| - 1]] + Reversed(ms[..|ms| - 1])
  }

  /** What the early allocator is asked for. */
  function Needs(cmdline: Str, ms: seq<Module>): nat {
    if ms == [] then INFO + |cmdline| + 1 else Needs(cmdline, ms[..|ms| - 1]) + RECORD + |ms[|ms| - 1].path| + 1
  }

  /** After the command line and the modules. */
  lemma {:induction false} TakenModules(cmdline: Str, ms: seq<Module>)
    ensures var p := TakeAll([Cmdline(cmdline)] + ModTags(ms));
      && (p.ok <==> Needs(cmdline, ms) < EARLY)
      && (p.ok ==> p == Progress(Info(cmdline, Reversed(ms), []), Needs(cmdline, ms), true))
  {
    var tags := [Cmdline(cmdline)] + ModTags(ms);
    if ms == [] {
      assert tags == [Cmdline(cmdline)];
      assert tags[..0] == [];
    } else {
      var r := ms[..|ms| - 1];
      TakenModules(cmdline, r);
      assert tags[..|tags| - 1] == [Cmdline(cmdline)] + ModTags(r);
    }
  }

  /** Parsing what the writer wrote gives back the command line, the modules in reverse order and the
      regions up to the limit, exactly when the early allocator has room for them. */
  lemma RoundTrip(cmdline: Str, ms: seq<Module>, rs: seq<Region>)
    ensures var p := TakeAll(Tags(cmdline, ms, rs));
      && (p.ok <==> Needs(cmdline, ms) < EARLY)
      && (p.ok ==> p.info == Info(cmdline, Reversed(ms), Capped(rs)))
  {
    var a := [Cmdline(cmdline)] + ModTags(ms);
    TakenModules(cmdline, ms);
    var b := a + [Mmap(rs)];
    assert b[..|b| - 1] == a;
    var c := b + [End];
    assert c[..|c| - 1] == b && c == Tags(cmdline, ms, rs);
    assert [] + rs == rs;
  }

  /** A command line as long as the early buffer is enough to fail, with no module at all. */
  lemma TooLong(c: byte, rs: seq<Region>)
    ensures !TakeAll(Tags(seq(EARLY, _ => c), [], rs)).ok
  {
    RoundTrip(seq(EARLY, _ => c), [], rs);
  }

  /** The longest command line that fits, with no module. */
  lemma JustFits(c: byte, rs: seq<Region>)
    ensures TakeAll(Tags(seq(5090, _ => c), [], rs)).ok && !TakeAll(Tags(seq(5091, _ => c), [], rs)).ok
  {
    RoundTrip(seq(5090, _ => c), [], rs);
    RoundTrip(seq(5091, _ => c), [], rs);
  }

  /** Writer, then parser. */
  method Boot(buf: seq<byte>, cmdline: Str, ms: seq<Module>, rs: seq<Region>) returns (info: Option<Info>)
    requires forall t :: t in Tags(cmdline, ms, rs) ==> TagOk(t)
    requires 8 + Span(Tags(cmdline, ms, rs)) <= |buf| < 0x1_0000_0000
    ensures info == if Needs(cmdline, ms) < EARLY then Some(Info(cmdline, Reversed(ms), Capped(rs))) else None
  {
    hide TagOk, Span, Laid;
    var block := Build(buf, cmdline, ms, rs);
    ghost var tags := Tags(cmdline, ms, rs);
    assert forall k :: 0 <= k < |tags| - 1 ==> !tags[k].End?;
    RoundTrip(cmdline, ms, rs);
    var p := Parse(block, tags);
    info := if p.ok then Some(p.info) else None;
  }
}
