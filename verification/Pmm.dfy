/** The physical frame allocator: one bit and one 16-bit reference count per 4 KiB frame. The
    managed range starts at physical address 0. */
module Pmm {
  import opened Common

  const FRAME := 4096
  const REFS := 0x1_0000
  /** Number of set bits. */
  function Count(bits: seq<bool>): nat {
    if bits == [] then 0 else Count(bits[..|bits| - 1]) + if bits[|bits| - 1] then 1 else 0
  }

  lemma {:induction false} CountUpdate(bits: seq<bool>, i: nat, value: bool)
    requires i < |bits|
    ensures Count(bits[i := value]) == Count(bits) + (if value then 1 else 0) - (if bits[i] then 1 else 0)
  {
    var n := |bits| - 1;
    if i < n {
      assert bits[i := value][..n] == bits[..n][i := value];
      CountUpdate(bits[..n], i, value);
    } else {
      assert bits[i := value][..n] == bits[..n];
    }
  }

  lemma {:induction false} CountAll(bits: seq<bool>)
    requires forall i :: 0 <= i < |bits| ==> bits[i]
    ensures Count(bits) == |bits|
  {
    if bits != [] { CountAll(bits[..|bits| - 1]); }
  }

  /** 32-bit align_down and align_up; rounding up wraps around in the last page. */
  function AlignDown(x: nat): nat {
    x / FRAME * FRAME
  }

  function AlignUp(x: nat): nat {
    AlignDown((x + FRAME - 1) % U32)
  }

  datatype Range = Range(start: nat, end: nat) {
    /** The frames pmm_mark_range_free releases. */
    predicate Releases(f: nat) {
      AlignUp(start) <= f * FRAME < AlignDown(end)
    }

    /** The frames pmm_mark_range_used reserves. */
    predicate Reserves(f: nat) {
      AlignDown(start) <= f * FRAME < AlignUp(end)
    }
  }

  /** What a range should release: the frames wholly inside it; and reserve: those it touches. */
  predicate Inside(r: Range, f: nat) {
    r.start <= f * FRAME && f * FRAME + FRAME <= r.end
  }

  predicate Overlaps(r: Range, f: nat) {
    f * FRAME < r.end && r.start < f * FRAME + FRAME
  }

  /** A range releases what it should unless it starts, and reserves what it should unless it
      ends, in the last page of the address space. */
  lemma RangeFrames(r: Range, f: nat)
    requires r.start <= r.end < U32
    ensures r.start <= U32 - FRAME ==> (r.Releases(f) <==> Inside(r, f))
    ensures r.start < r.end <= U32 - FRAME ==> (r.Reserves(f) <==> Overlaps(r, f))
  {
  }

  /** There rounding up wraps to 0: a usable range that starts in the last page releases every
      frame below it, and a critical range that ends there reserves nothing. */
  lemma RangeWraps(r: Range, f: nat)
    requires r.start <= r.end < U32
    ensures U32 - FRAME < r.start ==> (r.Releases(f) <==> f < U32 / FRAME - 1)
    ensures U32 - FRAME < r.end ==> !r.Reserves(f)
  {
  }

  /** So releasing is right for all frames exactly if the range does not start in the last page,
      and reserving exactly if it does not end there. */
  lemma RangeExact(r: Range)
    requires r.start < r.end < U32
    ensures (forall f: nat :: r.Releases(f) <==> Inside(r, f)) <==> r.start <= U32 - FRAME
    ensures (forall f: nat :: r.Reserves(f) <==> Overlaps(r, f)) <==> r.end <= U32 - FRAME
  {
    forall f: nat ensures r.start <= U32 - FRAME ==> (r.Releases(f) <==> Inside(r, f)) { RangeFrames(r, f); }
    forall f: nat ensures r.end <= U32 - FRAME ==> (r.Reserves(f) <==> Overlaps(r, f)) { RangeFrames(r, f); }
    RangeWraps(r, 0);
    RangeWraps(r, r.start / FRAME);
    assert !Inside(r, 0) || r.start <= U32 - FRAME;
    assert Overlaps(r, r.start / FRAME);
  }

  /** Reference counts are indexed by address, bitmap bits by offset from the managed range;
      the two agree exactly when the range starts at 0. */
  lemma IndexAgrees(base: nat, addr: nat)
    requires base % FRAME == 0 && addr % FRAME == 0 && base <= addr
    ensures addr / FRAME == (addr - base) / FRAME <==> base == 0
  {
  }

  ghost predicate AnyReleases(rs: seq<Range>, n: nat, f: nat)
    requires n <= |rs|
  {
    exists i :: 0 <= i < n && rs[i].Releases(f)
  }

  ghost predicate AnyReserves(rs: seq<Range>, n: nat, f: nat)
    requires n <= |rs|
  {
    exists i :: 0 <= i < n && rs[i].Reserves(f)
  }

  /** The frames that can be allocated; frame 0 never is. */
  ghost function FreeSet(bits: seq<bool>): set<nat> {
    set g: nat | 1 <= g < |bits| && !bits[g]
  }

  class FrameAllocator {
    var bits: seq<bool>
    var refs: seq<nat>
    var used: nat

    ghost predicate Valid()
      reads this
    {
      && |refs| == |bits| <= 0x10_0000
      && used == Count(bits)
      && forall f :: 0 <= f < |refs| ==> refs[f] < REFS
    }

    method RefInc(addr: nat)
      requires Valid()
      modifies this`refs
      ensures Valid()
      ensures refs == if addr / FRAME < |bits| then old(refs)[addr / FRAME := (old(refs)[addr / FRAME] + 1) % REFS]
        else old(refs)
    {
      var f := addr / FRAME;
      if f < |bits| { refs := refs[f := (refs[f] + 1) % REFS]; }
    }

    method RefGet(addr: nat) returns (n: nat)
      requires Valid()
      ensures n == if addr / FRAME < |bits| then refs[addr / FRAME] else 0
    {
      n := if addr / FRAME < |bits| then refs[addr / FRAME] else 0;
    }

    method MarkUsed(f: nat)
      requires Valid() && f < |bits|
      modifies this
      ensures Valid() && bits == old(bits)[f := true]
      ensures refs == if old(bits)[f] then old(refs) else old(refs)[f := 1]
    {
      if !bits[f] {
        CountUpdate(bits, f, true);
        bits := bits[f := true];
        used := used + 1;
        refs := refs[f := 1];
      }
    }

    /** Drops one reference; the bit is cleared when none is left. */
    method MarkFree(f: nat)
      requires Valid() && f < |bits|
      modifies this
      ensures Valid() && |bits| == old(|bits|)
      ensures refs == if old(bits[f] && refs[f] > 0) then old(refs)[f := old(refs[f]) - 1] else old(refs)
      ensures bits == if old(bits[f] && refs[f] <= 1) then old(bits)[f := false] else old(bits)
    {
      if !bits[f] { return; }
      if refs[f] > 0 { refs := refs[f := refs[f] - 1]; }
      if refs[f] == 0 {
        CountUpdate(bits, f, false);
        bits := bits[f := false];
        used := used - 1;
      }
    }

    /** pmm_frame_alloc: the lowest free frame above frame 0, with one reference. */
    method FrameAlloc() returns (addr: nat)
      requires Valid()
      modifies this
      ensures Valid() && |bits| == old(|bits|)
      ensures addr == 0 <==> forall f :: 1 <= f < |old(bits)| ==> old(bits)[f]
      ensures addr == 0 ==> bits == old(bits) && refs == old(refs)
      ensures addr != 0 ==>
        var f := addr / FRAME;
        && addr == f * FRAME && 1 <= f < |bits|
        && !old(bits)[f] && (forall g :: 1 <= g < f ==> old(bits)[g])
        && bits == old(bits)[f := true] && refs == old(refs)[f := 1]
    {
      var f := 1;
      while f < |bits|
        invariant 1 <= f && (f <= |bits| || f == 1)
        invariant Valid() && bits == old(bits) && refs == old(refs)
        invariant forall g :: 1 <= g < f && g < |bits| ==> bits[g]
      {
        if !bits[f] {
          MarkUsed(f);
          return f * FRAME;
        }
        f := f + 1;
      }
      return 0;
    }

    /** pmm_frame_free; addresses that are zero, unaligned or out of range are ignored. */
    method FrameFree(addr: nat)
      requires Valid()
      modifies this
      ensures Valid() && |bits| == old(|bits|)
      ensures var f := addr / FRAME;
        if addr == 0 || addr % FRAME != 0 || f >= |bits| then bits == old(bits) && refs == old(refs)
        else
          && refs == (if old(bits)[f] && old(refs)[f] > 0 then old(refs)[f := old(refs)[f] - 1] else old(refs))
          && bits == (if old(bits)[f] && old(refs)[f] <= 1 then old(bits)[f := false] else old(bits))
    {
      if addr == 0 || addr % FRAME != 0 || addr / FRAME >= |bits| { return; }
      MarkFree(addr / FRAME);
    }

    /** pmm_mark_range_free; frame 0 is never released. */
    method MarkRangeFree(r: Range)
      requires Valid()
      modifies this
      ensures Valid() && |bits| == old(|bits|)
      ensures forall f :: 0 <= f < |bits| ==> bits[f] == (old(bits)[f] && (f == 0 || !r.Releases(f)))
      ensures forall f :: 0 <= f < |bits| ==> refs[f] == if old(bits)[f] && !bits[f] then 0 else old(refs)[f]
    {
      var start, end := AlignUp(r.start), AlignDown(r.end);
      if start >= end { return; }
      var lo, hi := start / FRAME, end / FRAME;
      var f := lo;
      while f < hi && f < |bits|
        invariant lo <= f && Valid() && |bits| == old(|bits|)
        invariant forall g :: 0 <= g < |bits| ==> bits[g] == (old(bits)[g] && (g == 0 || !(lo <= g < f && g < hi)))
        invariant forall g :: 0 <= g < |bits| ==> refs[g] == if old(bits)[g] && !bits[g] then 0 else old(refs)[g]
      {
        if f != 0 && bits[f] {
          CountUpdate(bits, f, false);
          bits := bits[f := false];
          refs := refs[f := 0];
          used := used - 1;
        }
        f := f + 1;
      }
    }

    /** pmm_mark_range_used, clamped to the managed range. */
    method MarkRangeUsed(r: Range)
      requires Valid()
      modifies this
      ensures Valid() && |bits| == old(|bits|)
      ensures forall f :: 0 <= f < |bits| ==> bits[f] == (old(bits)[f] || r.Reserves(f))
      ensures forall f :: 0 <= f < |bits| ==> refs[f] == if bits[f] && !old(bits)[f] then 1 else old(refs)[f]
    {
      var start, end := AlignDown(r.start), AlignUp(r.end);
      if end > |bits| * FRAME { end := |bits| * FRAME; }
      if start >= end { return; }
      var lo, hi := start / FRAME, end / FRAME;
      var f := lo;
      while f < hi
        invariant lo <= f <= hi <= |bits| && Valid() && |bits| == old(|bits|)
        invariant forall g :: 0 <= g < |bits| ==> bits[g] == (old(bits)[g] || lo <= g < f)
        invariant forall g :: 0 <= g < |bits| ==> refs[g] == if bits[g] && !old(bits)[g] then 1 else old(refs)[g]
      {
        MarkUsed(f);
        f := f + 1;
      }
    }

    /** pmm_init: the free frames are exactly those released by some usable range, not frame 0
        and not reserved by any critical range. */
    constructor (total: nat, usable: seq<Range>, critical: seq<Range>)
      requires total <= 0x10_0000
      ensures Valid() && |bits| == total
      ensures forall f :: 0 <= f < total ==>
        (bits[f] <==> f == 0 || !AnyReleases(usable, |usable|, f) || AnyReserves(critical, |critical|, f))
    {
      bits := seq(total, _ => true);
      refs := seq(total, _ => 0);
      used := total;
      new;
      CountAll(bits);
      var i := 0;
      while i < |usable|
        invariant 0 <= i <= |usable| && Valid() && |bits| == total
        invariant forall f :: 0 <= f < total ==> (bits[f] <==> f == 0 || !AnyReleases(usable, i, f))
      {
        MarkRangeFree(usable[i]);
        assert forall f: nat :: AnyReleases(usable, i + 1, f) <==> AnyReleases(usable, i, f) || usable[i].Releases(f);
        i := i + 1;
      }
      var j := 0;
      while j < |critical|
        invariant 0 <= j <= |critical| && Valid() && |bits| == total
        invariant forall f :: 0 <= f < total ==>
          (bits[f] <==> f == 0 || !AnyReleases(usable, |usable|, f) || AnyReserves(critical, j, f))
      {
        MarkRangeUsed(critical[j]);
        assert forall f: nat :: AnyReserves(critical, j + 1, f) <==>
          AnyReserves(critical, j, f) || critical[j].Reserves(f);
        j := j + 1;
      }
    }
  }
}
