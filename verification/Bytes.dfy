/** Bytes, little-endian words and the two memory operations every on-disk or
    in-memory structure of the kernel is built from: reading a word and copying a
    run of bytes into a buffer. */
module Bytes {
  import opened Common

  type byte = x: int | 0 <= x < 256

  type Block = seq<byte>

  type u32 = x: int | 0 <= x < U32

  /** The 32-bit little-endian word stored at byte offset `at`. */
  function Word(b: seq<byte>, at: nat): (w: u32)
    requires at + 4 <= |b|
  {
    b[at] as int + 0x100 * b[at + 1] as int + 0x1_0000 * b[at + 2] as int + 0x100_0000 * b[at + 3] as int
  }

  function WordBytes(w: u32): (r: seq<byte>)
    ensures |r| == 4 && Word(r, 0) == w
  {
    [w % 0x100, w / 0x100 % 0x100, w / 0x1_0000 % 0x100, w / 0x100_0000]
  }

  /** The low byte comes first. */
  lemma LowByteFirst(a: byte)
    ensures WordBytes(a) == [a, 0, 0, 0] && WordBytes(0x100 * a as int) == [0, a, 0, 0]
    ensures WordBytes(0x1_0000 * a as int) == [0, 0, a, 0] && WordBytes(0x100_0000 * a as int) == [0, 0, 0, a]
  {
  }

  /** memcpy of `data` to offset `at` of `b`. */
  function Splice<T>(b: seq<T>, at: nat, data: seq<T>): (r: seq<T>)
    requires at + |data| <= |b|
    ensures |r| == |b|
    ensures forall k :: 0 <= k < |b| ==> r[k] == if at <= k < at + |data| then data[k - at] else b[k]
  {
    b[..at] + data + b[at + |data|..]
  }

  function Zeros(n: nat): (r: seq<byte>)
    ensures |r| == n && forall k :: 0 <= k < n ==> r[k] == 0
  {
    seq(n, _ => 0)
  }

  function Min(a: int, b: int): int {
    if a < b then a else b
  }

  /** Writing word `k` of a table of words changes that word and no other. */
  lemma WordSplice(b: seq<byte>, k: nat, w: u32, j: nat)
    requires 4 * k + 4 <= |b| && 4 * j + 4 <= |b|
    ensures Word(Splice(b, 4 * k, WordBytes(w)), 4 * j) == if j == k then w else Word(b, 4 * j)
  {
  }

  /** Quotient and remainder by repeated subtraction: the pair (block, offset) of a byte
      position, stated without nonlinear terms. `SplitIs` ties it to `/` and `%`. */
  function Split(x: nat, d: nat): (r: (nat, nat))
    requires 0 < d
    ensures r.1 < d && r.0 <= x
  {
    if x < d then (0, x) else
      var (q, r) := Split(x - d, d);
      (q + 1, r)
  }

  lemma {:induction false} SplitIs(x: nat, d: nat)
    requires 0 < d
    ensures Split(x, d) == (x / d, x % d)
    ensures x == Split(x, d).0 * d + Split(x, d).1
  {
    if x >= d {
      SplitIs(x - d, d);
      DivStep(x, d);
    } else {
      DivSmall(x, d);
    }
  }

  lemma DivStep(x: nat, d: nat)
    requires 0 < d <= x
    ensures x / d == (x - d) / d + 1 && x % d == (x - d) % d
  {
    var q := (x - d) / d;
    assert x - d == q * d + (x - d) % d;
    DivModIs(x, d, q + 1, (x - d) % d);
  }

  lemma DivSmall(x: nat, d: nat)
    requires x < d
    ensures x / d == 0 && x % d == x
  {
    DivModIs(x, d, 0, x);
  }

  /** Moving inside a block changes only the offset. */
  lemma {:induction false} SplitWithin(x: nat, t: nat, d: nat)
    requires 0 < d && Split(x, d).1 + t < d
    ensures Split(x + t, d) == (Split(x, d).0, Split(x, d).1 + t)
  {
    if x >= d { SplitWithin(x - d, t, d); }
  }

  /** Moving to the end of a block enters the next one at offset 0. */
  lemma {:induction false} SplitNext(x: nat, d: nat)
    requires 0 < d
    ensures Split(x + d - Split(x, d).1, d) == (Split(x, d).0 + 1, 0)
  {
    if x >= d { SplitNext(x - d, d); }
  }

  lemma {:induction false} SplitMono(x: nat, y: nat, d: nat)
    requires 0 < d && x <= y
    ensures Split(x, d).0 <= Split(y, d).0
    ensures Split(x, d).0 == Split(y, d).0 ==> Split(y, d).1 == Split(x, d).1 + (y - x)
  {
    if x >= d { SplitMono(x - d, y - d, d); }
  }

  lemma SplitInjective(x: nat, y: nat, d: nat)
    requires 0 < d && Split(x, d) == Split(y, d)
    ensures x == y
  {
    SplitMono(Min(x, y), if x < y then y else x, d);
  }

  /** The position with block `q` and offset `r`. */
  function Join(q: nat, r: nat, d: nat): nat {
    if q == 0 then r else d + Join(q - 1, r, d)
  }

  lemma {:induction false} SplitJoin(q: nat, r: nat, d: nat)
    requires r < d
    ensures Split(Join(q, r, d), d) == (q, r)
  {
    if q > 0 { SplitJoin(q - 1, r, d); }
  }

  lemma MulLess(a: int, b: int, d: nat)
    ensures a < b ==> (a + 1) * d <= b * d && a * d + d <= b * d
  {
  }

  /** Quotient and remainder are determined by the decomposition they give. */
  lemma DivModIs(x: nat, d: nat, q: nat, r: nat)
    requires 0 < d && r < d && x == q * d + r
    ensures x / d == q && x % d == r
  {
    assert x == (x / d) * d + x % d;
    MulLess(x / d, q, d);
    MulLess(q, x / d, d);
  }

  /** Block and in-block offset of a position, as the source computes them. */
  method Locate(o: nat, d: nat) returns (q: nat, r: nat)
    requires 0 < d
    ensures (q, r) == Split(o, d)
  {
    SplitIs(o, d);
    return o / d, o % d;
  }

  /** Number of blocks of `d` bytes that hold the first `n` bytes. */
  function BlocksOf(n: nat, d: nat): nat
    requires 0 < d
  {
    if n == 0 then 0 else Split(n - 1, d).0 + 1
  }

  /** They suffice, and one fewer would not. */
  lemma BlocksCover(n: nat, d: nat)
    requires 0 < d
    ensures n <= BlocksOf(n, d) * d && (BlocksOf(n, d) > 0 ==> (BlocksOf(n, d) - 1) * d < n)
  {
    if n > 0 { SplitIs(n - 1, d); }
  }

  /** The rounded-up division of the source. */
  method CeilDiv(n: nat, d: nat) returns (t: nat)
    requires 0 < d
    ensures t == BlocksOf(n, d)
  {
    if n > 0 {
      SplitIs(n - 1, d);
      DivStep(n + d - 1, d);
    } else {
      DivSmall(d - 1, d);
    }
    return (n + d - 1) / d;
  }
}
