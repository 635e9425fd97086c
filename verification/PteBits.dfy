/** Page directory and page table entries: 32-bit words, a frame number in the upper 20 bits and
    flags in the lower 12, separated by the masks ~0xFFF and 0xFFF. `Word` is the same
    information as a record; the lemmas say which record update each flag expression of the
    paging code is. */
module PteBits {
  const PRESENT: bv12 := 0x1
  const READWRITE: bv12 := 0x2
  const USER: bv12 := 0x4
  const COW: bv12 := 0x200

  /** The flag bits the kernel does not name. */
  type Rest = r: bv12 | r & 0xDF8 == r

  datatype Word = Word(frame: nat, present: bool, writable: bool, user: bool, cow: bool, rest: Rest)

  const ZERO := Word(0, false, false, false, false, 0)

  function Decode(frame: nat, flags: bv12): Word {
    RestBits(flags);
    Word(frame, flags & PRESENT != 0, flags & READWRITE != 0, flags & USER != 0, flags & COW != 0, flags & 0xDF8)
  }

  lemma RestBits(flags: bv12)
    ensures (flags & 0xDF8) & 0xDF8 == flags & 0xDF8
  {
  }

  function Flag(on: bool, mask: bv12): bv12 {
    if on then mask else 0
  }

  /** The flags of a word, as they are stored. */
  function Encode(w: Word): bv12 {
    Flag(w.present, PRESENT) | Flag(w.writable, READWRITE) | Flag(w.user, USER) | Flag(w.cow, COW) | w.rest
  }

  /** A word and its flags are the same thing. */
  lemma EncodeDecode(w: Word, frame: nat)
    ensures Decode(frame, Encode(w)) == w.(frame := frame)
  {
    var p, rw, u, c := Flag(w.present, PRESENT), Flag(w.writable, READWRITE), Flag(w.user, USER), Flag(w.cow, COW);
    FlagIs(w.present, PRESENT);
    FlagIs(w.writable, READWRITE);
    FlagIs(w.user, USER);
    FlagIs(w.cow, COW);
    hide Flag, Decode;
    Parts(frame, p, rw, u, c, w.rest);
  }

  /** The bits are those the processor reads, and it ignores the one for copy-on-write. */
  lemma ProcessorBits(w: Word)
    ensures Encode(w) & 1 == (if w.present then 1 else 0) && Encode(w) & 2 == (if w.writable then 2 else 0)
    ensures Encode(w) & 4 == (if w.user then 4 else 0) && COW & 0x1FF == 0
  {
    var p, rw, u, c := Flag(w.present, PRESENT), Flag(w.writable, READWRITE), Flag(w.user, USER), Flag(w.cow, COW);
    FlagIs(w.present, PRESENT);
    FlagIs(w.writable, READWRITE);
    FlagIs(w.user, USER);
    FlagIs(w.cow, COW);
    Separate(p, rw, u, c, w.rest);
  }

  lemma Parts(frame: nat, p: bv12, rw: bv12, u: bv12, c: bv12, r: Rest)
    requires p & PRESENT == p && rw & READWRITE == rw && u & USER == u && c & COW == c
    ensures Decode(frame, p | rw | u | c | r) == Word(frame, p != 0, rw != 0, u != 0, c != 0, r)
  {
    Separate(p, rw, u, c, r);
  }

  lemma FlagIs(on: bool, mask: bv12)
    requires mask != 0
    ensures Flag(on, mask) & mask == Flag(on, mask) && (Flag(on, mask) != 0 <==> on)
  {
  }

  lemma Separate(p: bv12, rw: bv12, u: bv12, c: bv12, r: bv12)
    requires p & PRESENT == p && rw & READWRITE == rw && u & USER == u && c & COW == c && r & 0xDF8 == r
    ensures var f := p | rw | u | c | r;
      f & PRESENT == p && f & READWRITE == rw && f & USER == u && f & COW == c && f & 0xDF8 == r
  {
  }

  /** Nothing is lost: two words with the same decoding are equal. */
  lemma DecodeInjective(f: nat, v: bv12, g: nat, w: bv12)
    requires Decode(f, v) == Decode(g, w)
    ensures f == g && v == w
  {
  }

  /** `pt[j] |= PT_COW; pt[j] &= ~READWRITE`. */
  lemma MarkCowBits(f: nat, w: bv12)
    ensures Decode(f, (w | COW) & !READWRITE) == Decode(f, w).(cow := true, writable := false)
  {
  }

  /** `*pte |= READWRITE; *pte &= ~PT_COW`, in place or with a new frame. */
  lemma PromoteBits(f: nat, w: bv12)
    ensures Decode(f, (w | READWRITE) & !COW) == Decode(f, w).(writable := true, cow := false)
  {
  }

  /** The flags of a mapping: the public flags that were asked for, and PRESENT. */
  lemma MapBits(f: nat, writable: bool, user: bool)
    ensures var flags: bv12 := (if writable then READWRITE else 0) | (if user then USER else 0);
            Decode(f, flags | PRESENT) == Word(f, true, writable, user, false, 0)
  {
  }

  /** What the fork stores over an entry. */
  function MarkCow(w: Word): (r: Word)
    ensures r == w.(cow := true, writable := false)
  {
    EncodeDecode(w, w.frame);
    MarkCowBits(w.frame, Encode(w));
    Decode(w.frame, (Encode(w) | COW) & !READWRITE)
  }

  /** What the fault handler stores over an entry, with the old frame or a new one. */
  function Promote(w: Word, frame: nat): (r: Word)
    ensures r == w.(frame := frame, writable := true, cow := false)
  {
    EncodeDecode(w, frame);
    PromoteBits(frame, Encode(w));
    Decode(frame, (Encode(w) | READWRITE) & !COW)
  }

  /** What mapping stores. */
  function MapWord(frame: nat, writable: bool, user: bool): (r: Word)
    ensures r == Word(frame, true, writable, user, false, 0)
  {
    MapBits(frame, writable, user);
    Decode(frame, (if writable then READWRITE else 0) | (if user then USER else 0) | PRESENT)
  }
}
