/** The Multiboot2 information block ("Boot information format" of the Multiboot2 specification): the
    bootloader's writer and the kernel's early parser. */
module Multiboot {
  import opened Bytes

  const TAG_END := 0
  const TAG_CMDLINE := 1
  const TAG_MODULE := 3
  const TAG_MMAP := 6
  /** sizeof of a memory map entry. */
  const ENTRY := 24
  const MAX_REGIONS := 256
  /** The kernel's bump allocator, and what it allocates: the boot information and module records. */
  const EARLY := 5120
  const INFO := 28
  const RECORD := 32

  type Str = seq<byte>

  datatype Region = Region(base: nat, length: nat, kind: u32)
  datatype Module = Module(start: u32, size: u32, path: Str)

  /** A string without NUL. */
  predicate Clean(s: Str) {
    forall i :: 0 <= i < |s| ==> s[i] != 0
  }

  function Quad(b: seq<byte>, at: nat): nat
    requires at + 8 <= |b|
  {
    Word(b, at) + 0x1_0000_0000 * Word(b, at + 4)
  }

  predicate Fits(r: Region) {
    r.base < 0x1_0000_0000_0000_0000 && r.length < 0x1_0000_0000_0000_0000
  }

  function QuadBytes(q: nat): (r: seq<byte>)
    requires q < 0x1_0000_0000_0000_0000
    ensures |r| == 8
  {
    WordBytes(q % 0x1_0000_0000) + WordBytes(q / 0x1_0000_0000)
  }

  datatype Tag = Cmdline(s: Str) | Mod(m: Module) | Mmap(rs: seq<Region>) | End

  /** What the tags can hold: sizes are 32-bit. */
  predicate TagOk(t: Tag) {
    match t
    case Cmdline(s) => Clean(s) && |s| < 0x8000_0000
    case Mod(m) => Clean(m.path) && |m.path| < 0x8000_0000
    case Mmap(rs) => |rs| < 0x400_0000 && forall i :: 0 <= i < |rs| ==> Fits(rs[i])
    case End => true
  }

  function RegionBytes(r: Region): (b: seq<byte>)
    requires Fits(r)
    ensures |b| == ENTRY
  {
    QuadBytes(r.base) + QuadBytes(r.length) + WordBytes(r.kind) + WordBytes(0)
  }

  function RegionsBytes(rs: seq<Region>): (b: seq<byte>)
    requires forall i :: 0 <= i < |rs| ==> Fits(rs[i])
    ensures |b| == ENTRY * |rs|
  {
    if rs == [] then [] else RegionsBytes(rs[..|rs| - 1]) + RegionBytes(rs[|rs| - 1])
  }

  function ModEnd(m: Module): u32 {
    (m.start + m.size) % 0x1_0000_0000
  }

  /** Type, size and contents of a tag. */
  function Body(t: Tag): (b: seq<byte>)
    requires TagOk(t)
    ensures |b| == TagSize(t)
  {
    match t
    case Cmdline(s) => WordBytes(TAG_CMDLINE) + WordBytes(TagSize(t)) + s + [0]
    case Mod(m) =>
      WordBytes(TAG_MODULE) + WordBytes(TagSize(t)) + WordBytes(m.start) + WordBytes(ModEnd(m)) + m.path + [0]
    case Mmap(rs) => WordBytes(TAG_MMAP) + WordBytes(TagSize(t)) + WordBytes(ENTRY) + WordBytes(0) + RegionsBytes(rs)
    case End => WordBytes(TAG_END) + WordBytes(TagSize(t))
  }

  function TagSize(t: Tag): nat {
    match t
    case Cmdline(s) => 8 + |s| + 1
    case Mod(m) => 16 + |m.path| + 1
    case Mmap(rs) => 16 + ENTRY * |rs|
    case End => 8
  }

  lemma WordIn(a: seq<byte>, w: u32, b: seq<byte>)
    ensures Word(a + WordBytes(w) + b, |a|) == w
  {
    var c, d := a + WordBytes(w) + b, WordBytes(w);
    assert c[|a|] == d[0] && c[|a| + 1] == d[1] && c[|a| + 2] == d[2] && c[|a| + 3] == d[3];
  }

  /** The tags in the words of the standard: type, size, and what follows at fixed offsets. */
  lemma TagFormat(t: Tag)
    requires TagOk(t)
    ensures var b := Body(t);
      && Word(b, 4) == |b|
      && match t
         case Cmdline(s) => Word(b, 0) == 1 && b[8..] == s + [0]
         case Mod(m) =>
           && Word(b, 0) == 3 && Word(b, 8) == m.start && Word(b, 12) == (m.start + m.size) % 0x1_0000_0000
           && b[16..] == m.path + [0]
         case Mmap(rs) => Word(b, 0) == 6 && Word(b, 8) == 24 && Word(b, 12) == 0 && b[16..] == RegionsBytes(rs)
         case End => Word(b, 0) == 0 && |b| == 8
  {
    var b, size := Body(t), TagSize(t);
    match t
    case Cmdline(s) => FourWords(b, TAG_CMDLINE, size, [], s + [0]);
    case Mod(m) => FourWords(b, TAG_MODULE, size, WordBytes(m.start) + WordBytes(ModEnd(m)), m.path + [0]);
    case Mmap(rs) => FourWords(b, TAG_MMAP, size, WordBytes(ENTRY) + WordBytes(0), RegionsBytes(rs));
    case End => FourWords(b, TAG_END, size, [], []);
  }

  /** Two words, perhaps two more, and the rest. */
  lemma FourWords(b: seq<byte>, x: u32, y: u32, more: seq<byte>, rest: seq<byte>)
    requires b == WordBytes(x) + WordBytes(y) + more + rest && (more == [] || |more| == 8)
    ensures Word(b, 0) == x && Word(b, 4) == y && b[8 + |more|..] == rest
    ensures |more| == 8 ==> Word(b, 8) == Word(more, 0) && Word(b, 12) == Word(more, 4)
  {
    assert b == [] + WordBytes(x) + (WordBytes(y) + more + rest);
    WordIn([], x, WordBytes(y) + more + rest);
    assert b == WordBytes(x) + WordBytes(y) + (more + rest);
    WordIn(WordBytes(x), y, more + rest);
    if |more| == 8 { assert forall i :: 0 <= i < 8 ==> b[8 + i] == more[i]; }
  }

  /** An entry of the memory map, and where it stands. */
  lemma RegionFormat(r: Region)
    requires Fits(r)
    ensures var b := RegionBytes(r); Quad(b, 0) == r.base && Quad(b, 8) == r.length && Word(b, 16) == r.kind
  {
    var b := RegionBytes(r);
    QuadIn(r.base);
    QuadIn(r.length);
    assert forall i :: 0 <= i < 8 ==> b[i] == QuadBytes(r.base)[i] && b[8 + i] == QuadBytes(r.length)[i];
    WordIn(QuadBytes(r.base) + QuadBytes(r.length), r.kind, WordBytes(0));
  }

  lemma QuadIn(q: nat)
    requires q < 0x1_0000_0000_0000_0000
    ensures Quad(QuadBytes(q), 0) == q
  {
    var lo, hi := q % 0x1_0000_0000, q / 0x1_0000_0000;
    WordIn([], lo, WordBytes(hi));
    WordIn(WordBytes(lo), hi, []);
    assert QuadBytes(q) == [] + WordBytes(lo) + WordBytes(hi) == WordBytes(lo) + WordBytes(hi) + [];
  }

  lemma {:induction false} RegionPlace(rs: seq<Region>, k: nat)
    requires (forall i :: 0 <= i < |rs| ==> Fits(rs[i])) && k < |rs|
    ensures RegionsBytes(rs)[24 * k..24 * k + 24] == RegionBytes(rs[k])
    decreases |rs|
  {
    hide RegionBytes, Fits;
    var n := |rs| - 1;
    var before, last := RegionsBytes(rs[..n]), RegionBytes(rs[n]);
    assert RegionsBytes(rs) == before + last;
    if k < n {
      RegionPlace(rs[..n], k);
      assert (before + last)[24 * k..24 * k + 24] == before[24 * k..24 * k + 24];
    } else {
      assert (before + last)[24 * n..24 * n + 24] == last;
    }
  }

  function Align(x: nat): nat {
    (x + 7) / 8 * 8
  }

  /** The next multiple of eight. */
  lemma AlignIs(x: nat)
    ensures x <= Align(x) < x + 8 && Align(x) % 8 == 0
  {
  }

  predicate Holds(buf: seq<byte>, at: nat, bytes: seq<byte>) {
    at + |bytes| <= |buf| && buf[at..at + |bytes|] == bytes
  }

  function Span(tags: seq<Tag>): nat {
    if tags == [] then 0 else Span(tags[..|tags| - 1]) + Align(TagSize(tags[|tags| - 1]))
  }

  /** The tags stand in the buffer one after the other, each at an 8-aligned distance; what is
      between them is arbitrary. */
  ghost predicate Laid(buf: seq<byte>, at: nat, tags: seq<Tag>) {
    forall k :: 0 <= k < |tags| ==> TagOk(tags[k]) && Holds(buf, at + Span(tags[..k]), Body(tags[k]))
  }

  lemma SpanNext(tags: seq<Tag>, k: nat)
    requires k < |tags|
    ensures Span(tags[..k + 1]) == Span(tags[..k]) + Align(TagSize(tags[k]))
  {
    assert tags[..k + 1][..k] == tags[..k];
  }

  lemma {:induction false} SpanMono(tags: seq<Tag>, k: nat)
    requires k < |tags|
    ensures Span(tags[..k]) + TagSize(tags[k]) <= Span(tags)
    decreases |tags|
  {
    var r := tags[..|tags| - 1];
    if k < |tags| - 1 {
      SpanMono(r, k);
      assert r[..k] == tags[..k];
    }
  }

  /** memcpy into the buffer, when it fits. */
  lemma HoldsSplice(buf: seq<byte>, at: nat, bytes: seq<byte>, at': nat, data: seq<byte>)
    requires at' + |data| <= |buf|
    ensures Holds(Splice(buf, at', data), at', data)
    ensures Holds(buf, at, bytes) && at + |bytes| <= at' ==> Holds(Splice(buf, at', data), at, bytes)
  {
    var r := Splice(buf, at', data);
    assert r[at'..at' + |data|] == data;
    if Holds(buf, at, bytes) && at + |bytes| <= at' { assert r[at..at + |bytes|] == buf[at..at + |bytes|]; }
  }

  lemma HoldsJoin(buf: seq<byte>, at: nat, a: seq<byte>, b: seq<byte>)
    requires Holds(buf, at, a) && Holds(buf, at + |a|, b)
    ensures Holds(buf, at, a + b)
  {
  }

  lemma HoldsPart(buf: seq<byte>, at: nat, a: seq<byte>, b: seq<byte>)
    requires Holds(buf, at, a + b)
    ensures Holds(buf, at, a) && Holds(buf, at + |a|, b)
  {
    var s := buf[at..at + |a| + |b|];
    assert s[..|a|] == a && s[|a|..] == b;
    assert buf[at..at + |a|] == s[..|a|] && buf[at + |a|..at + |a| + |b|] == s[|a|..];
  }

  lemma HoldsWord(buf: seq<byte>, at: nat, w: u32)
    requires Holds(buf, at, WordBytes(w))
    ensures at + 4 <= |buf| && Word(buf, at) == w
  {
    var s := buf[at..at + 4];
    assert Word(s, 0) == w;
    assert s[0] == buf[at] && s[1] == buf[at + 1] && s[2] == buf[at + 2] && s[3] == buf[at + 3];
  }

  /** One tag more, written behind the others. */
  lemma LaidNext(buf: seq<byte>, buf': seq<byte>, at: nat, tags: seq<Tag>, t: Tag)
    requires Laid(buf, at, tags) && |buf'| == |buf| && at + Span(tags) <= |buf|
    requires buf'[..at + Span(tags)] == buf[..at + Span(tags)]
    requires TagOk(t) && Holds(buf', at + Span(tags), Body(t))
    ensures Laid(buf', at, tags + [t]) && Span(tags + [t]) == Span(tags) + Align(TagSize(t))
  {
    hide Body, TagSize, TagOk, Align, Span, Holds;
    var ts := tags + [t];
    SpanNext(ts, |tags|);
    assert ts[..|tags|] == tags && ts[..|ts|] == ts;
    forall k | 0 <= k < |ts| ensures TagOk(ts[k]) && Holds(buf', at + Span(ts[..k]), Body(ts[k])) {
      if k < |tags| {
        assert ts[..k] == tags[..k];
        SpanMono(tags, k);
        HoldsSame(buf, buf', at + Span(tags), at + Span(tags[..k]), Body(tags[k]));
      }
    }
  }

  lemma HoldsSame(buf: seq<byte>, buf': seq<byte>, n: nat, at: nat, bytes: seq<byte>)
    requires n <= |buf| == |buf'| && buf'[..n] == buf[..n] && Holds(buf, at, bytes) && at + |bytes| <= n
    ensures Holds(buf', at, bytes)
  {
    assert buf'[at..at + |bytes|] == buf'[..n][at..at + |bytes|] == buf[..n][at..at + |bytes|] == buf[at..at + |bytes|];
  }

  /** A store of bytes at `at`, behind what is already there. */
  lemma Put(buf: seq<byte>, start: nat, done: seq<byte>, data: seq<byte>)
    requires Holds(buf, start, done) && start + |done| + |data| <= |buf|
    ensures var buf' := Splice(buf, start + |done|, data);
      Holds(buf', start, done + data) && buf'[..start] == buf[..start]
  {
    HoldsSplice(buf, start, done, start + |done|, data);
    HoldsJoin(Splice(buf, start + |done|, data), start, done, data);
  }

  /** The command line tag. */
  method PutCmdline(buf: seq<byte>, at: nat, s: Str) returns (r: seq<byte>, next: nat)
    requires TagOk(Cmdline(s)) && at + TagSize(Cmdline(s)) <= |buf|
    ensures |r| == |buf| && r[..at] == buf[..at] && Holds(r, at, Body(Cmdline(s)))
    ensures next == at + Align(TagSize(Cmdline(s)))
  {
    var size := 8 + |s| + 1;
    r := Splice(buf, at, WordBytes(TAG_CMDLINE));
    Put(buf, at, [], WordBytes(TAG_CMDLINE));
    ghost var d1: seq<byte> := [] + WordBytes(TAG_CMDLINE);
    Put(r, at, d1, WordBytes(size));
    r := Splice(r, at + 4, WordBytes(size));
    ghost var d2 := d1 + WordBytes(size);
    Put(r, at, d2, s + [0]);
    r := Splice(r, at + 8, s + [0]);
    assert d2 + (s + [0]) == Body(Cmdline(s));
    next := at + Align(size);
  }

  /** A module tag; its size is stored last. */
  method PutModule(buf: seq<byte>, at: nat, m: Module) returns (r: seq<byte>, next: nat)
    requires TagOk(Mod(m)) && at + TagSize(Mod(m)) <= |buf|
    ensures |r| == |buf| && r[..at] == buf[..at] && Holds(r, at, Body(Mod(m))) && next == at + Align(TagSize(Mod(m)))
  {
    var size := 16 + |m.path| + 1;
    r := Splice(buf, at, WordBytes(TAG_MODULE));
    r := Splice(r, at + 8, WordBytes(m.start));
    r := Splice(r, at + 12, WordBytes(ModEnd(m)));
    r := Splice(r, at + 16, m.path + [0]);
    r := Splice(r, at + 4, WordBytes(size));
    ghost var b := Body(Mod(m));
    forall k | 0 <= k < |b| ensures r[at + k] == b[k] {}
    assert r[at..at + |b|] == b;
    next := at + Align(size);
  }

  /** The memory map tag. */
  method PutMmap(buf: seq<byte>, at: nat, rs: seq<Region>) returns (r: seq<byte>, next: nat)
    requires TagOk(Mmap(rs)) && at + TagSize(Mmap(rs)) <= |buf|
    ensures |r| == |buf| && r[..at] == buf[..at] && Holds(r, at, Body(Mmap(rs)))
    ensures next == at + Align(TagSize(Mmap(rs)))
  {
    var size := 16 + ENTRY * |rs|;
    r := Splice(buf, at, WordBytes(TAG_MMAP));
    r := Splice(r, at + 8, WordBytes(ENTRY));
    r := Splice(r, at + 12, WordBytes(0));
    r := PutRegions(r, at + 16, rs);
    r := Splice(r, at + 4, WordBytes(size));
    ghost var b := Body(Mmap(rs));
    next := at + Align(size);
    forall k | 0 <= k < |b| ensures r[at + k] == b[k] {}
    assert r[at..at + |b|] == b;
  }

  /** The loop over the regions. */
  method PutRegions(buf: seq<byte>, at: nat, rs: seq<Region>) returns (r: seq<byte>)
    requires (forall i :: 0 <= i < |rs| ==> Fits(rs[i])) && at + ENTRY * |rs| <= |buf|
    ensures |r| == |buf| && r[..at] == buf[..at] && Holds(r, at, RegionsBytes(rs))
  {
    r := buf;
    var i := 0;
    while i < |rs|
      invariant 0 <= i <= |rs| && |r| == |buf| && r[..at] == buf[..at] && Holds(r, at, RegionsBytes(rs[..i]))
    {
      assert rs[..i + 1][..i] == rs[..i];
      Put(r, at, RegionsBytes(rs[..i]), RegionBytes(rs[i]));
      r := Splice(r, at + ENTRY * i, RegionBytes(rs[i]));
      i := i + 1;
    }
    assert rs[..i] == rs;
  }

  function ModTags(ms: seq<Module>): (r: seq<Tag>)
    ensures |r| == |ms| && forall i :: 0 <= i < |ms| ==> r[i] == Mod(ms[i])
  {
    seq(|ms|, i requires 0 <= i < |ms| => Mod(ms[i]))
  }

  /** The tags of a block. */
  function Tags(cmdline: Str, ms: seq<Module>, rs: seq<Region>): seq<Tag> {
    [Cmdline(cmdline)] + ModTags(ms) + [Mmap(rs)] + [End]
  }

  lemma LaidBefore(buf: seq<byte>, buf': seq<byte>, at: nat, tags: seq<Tag>)
    requires Laid(buf, at, tags) && |buf'| == |buf| && forall i :: at <= i < |buf| ==> buf'[i] == buf[i]
    ensures Laid(buf', at, tags)
  {
    hide Body, TagSize, TagOk, Align, Span;
    forall k | 0 <= k < |tags| ensures Holds(buf', at + Span(tags[..k]), Body(tags[k])) {
      var a, n := at + Span(tags[..k]), |Body(tags[k])|;
      assert buf'[a..a + n] == buf[a..a + n];
    }
  }

  /** multiboot2_build: the whole block, over whatever the buffer held. */
  method Build(buf: seq<byte>, cmdline: Str, ms: seq<Module>, rs: seq<Region>) returns (r: seq<byte>)
    requires forall t :: t in Tags(cmdline, ms, rs) ==> TagOk(t)
    requires 8 + Span(Tags(cmdline, ms, rs)) <= |buf| < 0x1_0000_0000
    ensures |r| == |buf| && Laid(r, 8, Tags(cmdline, ms, rs)) && Word(r, 0) == 8 + Span(Tags(cmdline, ms, rs))
  {
    hide Body, TagSize, TagOk, Align, Span, Laid;
    ghost var all := Tags(cmdline, ms, rs);
    ghost var tags: seq<Tag> := [];
    Nothing(buf, 8);
    Room(all, 0);
    assert all[0] == Cmdline(cmdline) && all[0] in all && all[..0] == tags;
    var at;
    r, at := PutCmdline(buf, 8, cmdline);
    LaidNext(buf, r, 8, tags, Cmdline(cmdline));
    tags := tags + [Cmdline(cmdline)];
    var i := 0;
    while i < |ms|
      invariant 0 <= i <= |ms| && |r| == |buf| && tags == all[..1 + i] && Laid(r, 8, tags) && at == 8 + Span(tags)
    {
      Room(all, 1 + i);
      assert all[1 + i] == Mod(ms[i]) && all[1 + i] in all;
      ghost var r0 := r;
      r, at := PutModule(r, at, ms[i]);
      LaidNext(r0, r, 8, tags, Mod(ms[i]));
      tags := tags + [Mod(ms[i])];
      i := i + 1;
    }
    r := Finish(r, at, rs, tags, all);
  }

  /** The memory map tag, the end tag and the total size. */
  method Finish(buf: seq<byte>, start: nat, rs: seq<Region>, ghost tags: seq<Tag>, ghost all: seq<Tag>)
    returns (r: seq<byte>)
    requires all == tags + [Mmap(rs)] + [End] && (forall t :: t in all ==> TagOk(t))
    requires 8 + Span(all) <= |buf| < 0x1_0000_0000
    requires Laid(buf, 8, tags) && start == 8 + Span(tags)
    ensures |r| == |buf| && Laid(r, 8, all) && Word(r, 0) == 8 + Span(all)
  {
    hide Body, TagOk, Align, Span, Laid;
    ghost var n := |tags|;
    Room(all, n);
    assert all[n] == Mmap(rs) && all[n] in all && all[..n] == tags;
    var at;
    r, at := PutMmap(buf, start, rs);
    LaidNext(buf, r, 8, tags, Mmap(rs));
    ghost var tags' := tags + [Mmap(rs)];
    Room(all, n + 1);
    assert all[n + 1] == End && all[..n + 1] == tags';
    ghost var r0 := r;
    r, at := PutEnd(r, at);
    LaidNext(r0, r, 8, tags', End);
    assert tags' + [End] == all;
    ghost var r1 := r;
    r := Splice(r, 0, WordBytes(at));
    LaidBefore(r1, r, 8, all);
    HoldsSplice(r1, 0, [], 0, WordBytes(at));
    HoldsWord(r, 0, at);
  }

  /** The end tag. */
  method PutEnd(buf: seq<byte>, at: nat) returns (r: seq<byte>, next: nat)
    requires at + 8 <= |buf|
    ensures |r| == |buf| && r[..at] == buf[..at] && Holds(r, at, Body(End)) && next == at + Align(TagSize(End))
  {
    r := Splice(buf, at, WordBytes(TAG_END));
    r := Splice(r, at + 4, WordBytes(8));
    ghost var b := Body(End);
    forall k | 0 <= k < |b| ensures r[at + k] == b[k] {}
    assert r[at..at + |b|] == b;
    next := at + 8;
  }

  lemma Nothing(buf: seq<byte>, at: nat)
    ensures Laid(buf, at, []) && Span([]) == 0
  {
  }

  /** There is room for tag `k` where the ones before it end. */
  lemma Room(all: seq<Tag>, k: nat)
    requires k < |all|
    ensures Span(all[..k]) + TagSize(all[k]) <= Span(all)
  {
    SpanMono(all, k);
  }
}
