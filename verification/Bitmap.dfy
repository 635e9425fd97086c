/** Byte-array bitmaps. The block and inode bitmaps of MyFS, the frame bitmap of the
    physical memory manager and the page bitmap of the kernel heap all use the same
    operations on a byte array. `View` is the sequence of bits such an array stands
    for; the laws below let every other module work on that sequence. */
module Bitmap {
  type Bits = seq<bv8>

  /** `1 << k` for a bit position inside one byte. */
  function Mask(k: nat): bv8
    requires k < 8
  {
    match k
    case 0 => 1
    case 1 => 2
    case 2 => 4
    case 3 => 8
    case 4 => 16
    case 5 => 32
    case 6 => 64
    case 7 => 128
  }

  /** Bit `k` of a byte. */
  predicate Bit(b: bv8, k: nat)
    requires k < 8
  {
    b & Mask(k) != 0
  }

  /** The lowest bit comes first. */
  lemma BitOrder(b: bv8)
    ensures b == Part(b, 0) | Part(b, 1) | Part(b, 2) | Part(b, 3) | Part(b, 4) | Part(b, 5) | Part(b, 6) | Part(b, 7)
  {
  }

  /** What bit `k` contributes to the value of a byte. */
  function Part(b: bv8, k: nat): bv8
    requires k < 8
  {
    if Bit(b, k) then 1 << k else 0
  }

  predicate Test(bits: Bits, n: nat)
    requires n < 8 * |bits|
  {
    Bit(bits[n / 8], n % 8)
  }

  lemma BitSet(b: bv8, k: nat)
    requires k < 8
    ensures forall j: nat :: j < 8 ==> (Bit(b | Mask(k), j) <==> j == k || Bit(b, j))
  {
  }

  lemma BitClearAt(b: bv8, k: nat, j: nat)
    requires k < 8 && j < 8
    ensures Bit(b & !Mask(k), j) <==> j != k && Bit(b, j)
  {
  }

  lemma BitClear(b: bv8, k: nat)
    requires k < 8
    ensures forall j: nat :: j < 8 ==> (Bit(b & !Mask(k), j) <==> j != k && Bit(b, j))
  {
    forall j: nat | j < 8 ensures Bit(b & !Mask(k), j) <==> j != k && Bit(b, j) {
      BitClearAt(b, k, j);
    }
  }

  /** Replacing the byte that holds bit `n` by one that differs at most in that bit. */
  lemma ByteUpdate(bits: Bits, n: nat, b: bv8, value: bool)
    requires n < 8 * |bits|
    requires forall j: nat :: j < 8 ==> (Bit(b, j) <==> if j == n % 8 then value else Bit(bits[n / 8], j))
    ensures forall m: nat :: m < 8 * |bits| ==>
              (Test(bits[n / 8 := b], m) <==> if m == n then value else Test(bits, m))
  {
    forall m: nat | m < 8 * |bits|
      ensures Test(bits[n / 8 := b], m) <==> if m == n then value else Test(bits, m)
    {
      assert m % 8 < 8 && (m == n <==> m / 8 == n / 8 && m % 8 == n % 8);
    }
  }

  function Set(bits: Bits, n: nat): (r: Bits)
    requires n < 8 * |bits|
    ensures |r| == |bits|
    ensures forall m: nat :: m < 8 * |r| ==> (Test(r, m) <==> m == n || Test(bits, m))
  {
    var b := bits[n / 8] | Mask(n % 8);
    BitSet(bits[n / 8], n % 8);
    ByteUpdate(bits, n, b, true);
    bits[n / 8 := b]
  }

  function Clear(bits: Bits, n: nat): (r: Bits)
    requires n < 8 * |bits|
    ensures |r| == |bits|
    ensures forall m: nat :: m < 8 * |r| ==> (Test(r, m) <==> m != n && Test(bits, m))
  {
    var b := bits[n / 8] & !Mask(n % 8);
    BitClear(bits[n / 8], n % 8);
    ByteUpdate(bits, n, b, false);
    bits[n / 8 := b]
  }

  /** The bits, lowest bit of the first byte first. */
  function View(bits: Bits): (v: seq<bool>)
    ensures |v| == 8 * |bits|
    ensures forall n :: 0 <= n < |v| ==> v[n] == Test(bits, n)
  {
    seq(8 * |bits|, n requires 0 <= n < 8 * |bits| => Test(bits, n))
  }

  /** The bytes `m` hold the bits `bits`. */
  ghost predicate Shows(m: Bits, bits: seq<bool>) {
    |bits| == 8 * |m| && forall n: nat {:trigger Test(m, n)} :: n < |bits| ==> bits[n] == Test(m, n)
  }

  lemma ShowsView(m: Bits, bits: seq<bool>)
    ensures Shows(m, bits) <==> bits == View(m)
  {
    if Shows(m, bits) {
      var v := View(m);
      forall n | 0 <= n < |v| ensures v[n] == bits[n] { assert v[n] == Test(m, n); }
    }
  }

  lemma ShowsSet(m: Bits, bits: seq<bool>, n: nat)
    requires Shows(m, bits) && n < |bits|
    ensures Shows(Set(m, n), bits[n := true])
  {
    ShowsView(m, bits);
    SetView(m, n);
    ShowsView(Set(m, n), bits[n := true]);
  }

  lemma ShowsClear(m: Bits, bits: seq<bool>, n: nat)
    requires Shows(m, bits) && n < |bits|
    ensures Shows(Clear(m, n), bits[n := false])
  {
    ShowsView(m, bits);
    ClearView(m, n);
    ShowsView(Clear(m, n), bits[n := false]);
  }

  lemma SetView(bits: Bits, n: nat)
    requires n < 8 * |bits|
    ensures View(Set(bits, n)) == View(bits)[n := true]
  {
    var v, w := View(Set(bits, n)), View(bits)[n := true];
    forall m | 0 <= m < |v| ensures v[m] == w[m] { assert v[m] == Test(Set(bits, n), m); }
  }

  lemma ClearView(bits: Bits, n: nat)
    requires n < 8 * |bits|
    ensures View(Clear(bits, n)) == View(bits)[n := false]
  {
    var v, w := View(Clear(bits, n)), View(bits)[n := false];
    forall m | 0 <= m < |v| ensures v[m] == w[m] { assert v[m] == Test(Clear(bits, n), m); }
  }

  /** The least clear position at or after `start`, or -1 when there is none. */
  function FirstClear(v: seq<bool>, start: nat): (n: int)
    ensures n == -1 || start <= n < |v|
    ensures n >= 0 ==> !v[n] && forall m :: start <= m < n ==> v[m]
    ensures n == -1 ==> forall m :: start <= m < |v| ==> v[m]
    decreases |v| - start
  {
    if start >= |v| then -1 else if !v[start] then start else FirstClear(v, start + 1)
  }

  lemma FullByte(b: bv8, k: nat)
    requires k < 8
    ensures b == 0xFF ==> Bit(b, k)
  {
  }

  /** The byte-then-bit scan of MyFS: it skips bytes that are 0xFF and enters the first
      byte at the requested bit. */
  method FindFirstEmpty(bits: Bits, start: nat) returns (n: int)
    ensures n == FirstClear(View(bits), start)
  {
    var first := start / 8;
    var i := first;
    while i < |bits|
      invariant first <= i
      invariant i <= |bits| || i == first
      invariant forall m: nat :: start <= m < 8 * i && m < 8 * |bits| ==> Test(bits, m)
    {
      var bit := if i == first then start % 8 else 0;
      if bits[i] != 0xFF {
        while bit < 8
          invariant bit <= 8
          invariant i == first ==> start % 8 <= bit
          invariant forall m: nat :: start <= m < 8 * i + bit ==> Test(bits, m)
        {
          if !Bit(bits[i], bit) {
            n := 8 * i + bit;
            FirstClearIs(bits, start, n);
            return;
          }
          bit := bit + 1;
        }
      } else {
        forall m: nat | start <= m < 8 * i + 8 ensures Test(bits, m) {
          if m >= 8 * i { FullByte(bits[i], m % 8); }
        }
      }
      i := i + 1;
    }
    n := -1;
    FirstClearIs(bits, start, n);
  }

  /** The same, in terms of the bits the bytes hold. */
  method FirstEmpty(m: Bits, start: nat, ghost bits: seq<bool>) returns (n: int)
    requires Shows(m, bits)
    ensures n == FirstClear(bits, start)
  {
    ShowsView(m, bits);
    n := FindFirstEmpty(m, start);
  }

  lemma FirstClearIs(bits: Bits, start: nat, n: int)
    requires n == -1 || start <= n < 8 * |bits|
    requires n >= 0 ==> !Test(bits, n) && forall m: nat :: start <= m < n ==> Test(bits, m)
    requires n == -1 ==> forall m: nat :: start <= m < 8 * |bits| ==> Test(bits, m)
    ensures n == FirstClear(View(bits), start)
  {
  }
}
