/**
 * CRC-16/CCITT-FALSE (polynomial 0x1021, initial value 0xFFFF, no reflection, no final xor),
 * the checksum of tag 63 of the EMV QRCPS merchant-presented mode, and what it detects.
 *
 * The register is described bit by bit, and the loops over 16-bit words are proved against
 * that description. One round is a linear bijection on register states, so the checksum tells
 * apart any two messages that differ only within 16 consecutive bits.
 */
module Crc16 {

  datatype Bit = O | I

  /** Exclusive or of two bits. */
  function Flip(a: Bit, b: Bit): Bit {
    if a == b then O else I
  }

  lemma {:induction false} FlipCancels()
    ensures forall x, y, z :: Flip(x, y) == Flip(x, z) ==> y == z
    ensures forall x, y, z :: Flip(y, x) == Flip(z, x) ==> y == z
  {
  }

  lemma {:induction false} FlipSwaps(a: Bit, b: Bit, c: Bit, d: Bit)
    ensures Flip(Flip(a, b), Flip(c, d)) == Flip(Flip(a, c), Flip(b, d))
  {
  }

  // ------------------------------------------------------------------ the register

  /** Sixteen bits, the high one first. */
  datatype Register = Register(
    b15: Bit, b14: Bit, b13: Bit, b12: Bit, b11: Bit, b10: Bit, b9: Bit, b8: Bit, b7: Bit, b6: Bit, b5: Bit, b4: Bit,
    b3: Bit, b2: Bit, b1: Bit, b0: Bit)

  const ONES := Register(I, I, I, I, I, I, I, I, I, I, I, I, I, I, I, I)

  function Plus(a: Register, b: Register): Register {
    Register(
      Flip(a.b15, b.b15), Flip(a.b14, b.b14), Flip(a.b13, b.b13), Flip(a.b12, b.b12), Flip(a.b11, b.b11), Flip(a.b10,
      b.b10), Flip(a.b9, b.b9), Flip(a.b8, b.b8), Flip(a.b7, b.b7), Flip(a.b6, b.b6), Flip(a.b5, b.b5), Flip(a.b4,
      b.b4), Flip(a.b3, b.b3), Flip(a.b2, b.b2), Flip(a.b1, b.b1), Flip(a.b0, b.b0))
  }

  /** Shift left; when the bit shifted out is set, add x^12 + x^5 + 1. */
  function Round(s: Register): Register {
    Register(
      s.b14, s.b13, s.b12, Flip(s.b11, s.b15), s.b10, s.b9, s.b8, s.b7, s.b6, s.b5, Flip(s.b4, s.b15), s.b3, s.b2,
      s.b1, s.b0, s.b15)
  }

  function Rounds(s: Register, n: nat): Register
    decreases n
  {
    if n == 0 then s else Rounds(Round(s), n - 1)
  }

  /** One message bit enters at the top, then one round. */
  function Enter(s: Register, bit: Bit): Register {
    Round(s.(b15 := Flip(s.b15, bit)))
  }

  /** The whole message through the register, first bit first. */
  function Feed(s: Register, bits: seq<Bit>): Register
    decreases |bits|
  {
    if bits == [] then s else Feed(Enter(s, bits[0]), bits[1..])
  }

  /** The polynomial has a constant term, so a round loses nothing. */
  lemma {:induction false} RoundInjective(a: Register, b: Register)
    ensures Round(a) == Round(b) ==> a == b
  {
    FlipCancels();
  }

  lemma {:induction false} RoundLinear(a: Register, b: Register)
    ensures Round(Plus(a, b)) == Plus(Round(a), Round(b))
  {
    FlipSwaps(a.b11, b.b11, a.b15, b.b15);
    FlipSwaps(a.b4, b.b4, a.b15, b.b15);
  }

  lemma {:induction false} RoundsInjective(a: Register, b: Register, n: nat)
    ensures Rounds(a, n) == Rounds(b, n) ==> a == b
    decreases n
  {
    if n == 0 {
    } else {
      RoundsInjective(Round(a), Round(b), n - 1);
      RoundInjective(a, b);
    }
  }

  lemma {:induction false} RoundsExtend(s: Register, n: nat)
    ensures Rounds(s, n + 1) == Round(Rounds(s, n))
    decreases n
  {
    if n == 0 {
    } else {
      RoundsExtend(Round(s), n - 1);
    }
  }

  function At(bits: seq<Bit>, i: nat): Bit {
    if i < |bits| then bits[i] else O
  }

  /** The first sixteen bits as a register, zeros where there are fewer. */
  function Packed(bits: seq<Bit>): Register {
    Register(
      At(bits, 0), At(bits, 1), At(bits, 2), At(bits, 3), At(bits, 4), At(bits, 5), At(bits, 6), At(bits, 7), At(bits,
      8), At(bits, 9), At(bits, 10), At(bits, 11), At(bits, 12), At(bits, 13), At(bits, 14), At(bits, 15))
  }

  lemma {:induction false} PackedTail(bits: seq<Bit>, i: nat)
    requires bits != []
    ensures At(bits[1..], i) == At(bits, i + 1)
  {
  }

  /** A bit enters, the others wait below it. */
  lemma {:induction false} EnterMany(s: Register, bits: seq<Bit>)
    requires 0 < |bits| <= 16
    ensures Round(Plus(s, Packed(bits))) == Plus(Enter(s, bits[0]), Packed(bits[1..]))
  {
    forall i: nat ensures At(bits[1..], i) == At(bits, i + 1) {
      PackedTail(bits, i);
    }
  }

  /** Up to 16 bits can enter all at once: one addition, then as many rounds. */
  lemma {:induction false} FeedIsRounds(s: Register, bits: seq<Bit>)
    requires |bits| <= 16
    ensures Feed(s, bits) == Rounds(Plus(s, Packed(bits)), |bits|)
    decreases |bits|
  {
    if bits == [] {
      assert Plus(s, Packed(bits)) == s;
    } else {
      FeedIsRounds(Enter(s, bits[0]), bits[1..]);
      EnterMany(s, bits);
    }
  }

  lemma {:induction false} PackedInjective(a: seq<Bit>, b: seq<Bit>)
    requires |a| == |b| <= 16 && Packed(a) == Packed(b)
    ensures a == b
  {
    forall i | 0 <= i < |a| ensures a[i] == b[i] {
      assert At(a, i) == At(b, i);
    }
  }

  lemma {:induction false} PlusCancels(s: Register, a: Register, b: Register)
    ensures Plus(s, a) == Plus(s, b) ==> a == b
  {
    FlipCancels();
  }

  lemma {:induction false} FeedAppend(s: Register, a: seq<Bit>, b: seq<Bit>)
    ensures Feed(s, a + b) == Feed(Feed(s, a), b)
    decreases |a|
  {
    if a == [] {
      assert a + b == b;
    } else {
      assert (a + b)[1..] == a[1..] + b;
      FeedAppend(Enter(s, a[0]), a[1..], b);
    }
  }

  lemma {:induction false} EnterInjective(a: Register, b: Register, bit: Bit)
    ensures Enter(a, bit) == Enter(b, bit) ==> a == b
  {
    RoundInjective(a.(b15 := Flip(a.b15, bit)), b.(b15 := Flip(b.b15, bit)));
    FlipCancels();
  }

  lemma {:induction false} EnterLinear(s: Register, t: Register, x: Bit, y: Bit)
    ensures Enter(Plus(s, t), Flip(x, y)) == Plus(Enter(s, x), Enter(t, y))
  {
    RoundLinear(s.(b15 := Flip(s.b15, x)), t.(b15 := Flip(t.b15, y)));
    FlipSwaps(s.b15, t.b15, x, y);
  }

  /** The same bits never bring two different states together. */
  lemma {:induction false} FeedInjective(a: Register, b: Register, bits: seq<Bit>)
    ensures Feed(a, bits) == Feed(b, bits) ==> a == b
    decreases |bits|
  {
    if bits == [] {
    } else {
      FeedInjective(Enter(a, bits[0]), Enter(b, bits[0]), bits[1..]);
      EnterInjective(a, b, bits[0]);
    }
  }

  /** Up to 16 bits from one state: different bits, different states. */
  lemma {:induction false} WindowInjective(s: Register, a: seq<Bit>, b: seq<Bit>)
    requires |a| == |b| <= 16 && Feed(s, a) == Feed(s, b)
    ensures a == b
  {
    FeedIsRounds(s, a);
    FeedIsRounds(s, b);
    RoundsInjective(Plus(s, Packed(a)), Plus(s, Packed(b)), |a|);
    PlusCancels(s, Packed(a), Packed(b));
    PackedInjective(a, b);
  }

  /** Messages that differ only within 16 consecutive bits get different checksums. */
  lemma {:induction false} BurstDetected(s: Register, before: seq<Bit>, a: seq<Bit>, b: seq<Bit>, after: seq<Bit>)
    requires |a| == |b| <= 16 && a != b
    ensures Feed(s, before + a + after) != Feed(s, before + b + after)
  {
    FeedAppend(s, before + a, after);
    FeedAppend(s, before + b, after);
    FeedAppend(s, before, a);
    FeedAppend(s, before, b);
    var c := Feed(s, before);
    FeedInjective(Feed(c, a), Feed(c, b), after);
    if Feed(c, a) == Feed(c, b) {
      WindowInjective(c, a, b);
    }
  }

  function Difference(a: seq<Bit>, b: seq<Bit>): (r: seq<Bit>)
    requires |a| == |b|
    ensures |r| == |a|
  {
    if a == [] then [] else [Flip(a[0], b[0])] + Difference(a[1..], b[1..])
  }

  /** The checksum of a difference of messages is the difference of their checksums. */
  lemma {:induction false} FeedLinear(s: Register, t: Register, a: seq<Bit>, b: seq<Bit>)
    requires |a| == |b|
    ensures Feed(Plus(s, t), Difference(a, b)) == Plus(Feed(s, a), Feed(t, b))
    decreases |a|
  {
    if a == [] {
    } else {
      EnterLinear(s, t, a[0], b[0]);
      FeedLinear(Enter(s, a[0]), Enter(t, b[0]), a[1..], b[1..]);
      assert Difference(a, b)[1..] == Difference(a[1..], b[1..]);
    }
  }

  // ------------------------------------------------------------------ bytes

  /** One bit of a byte, picked by a mask. */
  function ByteBit(x: bv8, mask: bv8): Bit {
    if x & mask != 0 then I else O
  }

  /** The bits of a byte, high bit first. */
  function Bits(x: bv8): (r: seq<Bit>)
    ensures |r| == 8
  {
    [ByteBit(x, 0x80), ByteBit(x, 0x40), ByteBit(x, 0x20), ByteBit(x, 0x10),
     ByteBit(x, 0x08), ByteBit(x, 0x04), ByteBit(x, 0x02), ByteBit(x, 0x01)]
  }

  function AllBits(data: seq<bv8>): (r: seq<Bit>)
    ensures |r| == 8 * |data|
  {
    if data == [] then [] else AllBits(data[..|data| - 1]) + Bits(data[|data| - 1])
  }

  function Crc(data: seq<bv8>): Register {
    Feed(ONES, AllBits(data))
  }

  lemma {:induction false} BitsInjective(x: bv8, y: bv8)
    ensures Bits(x) == Bits(y) ==> x == y
  {
    if Bits(x) == Bits(y) {
      assert Bits(x)[0] == Bits(y)[0] && Bits(x)[1] == Bits(y)[1] && Bits(x)[2] == Bits(y)[2]
        && Bits(x)[3] == Bits(y)[3] && Bits(x)[4] == Bits(y)[4] && Bits(x)[5] == Bits(y)[5]
        && Bits(x)[6] == Bits(y)[6] && Bits(x)[7] == Bits(y)[7];
      ByteBits(x, y);
    }
  }

  lemma {:induction false} ByteBits(x: bv8, y: bv8)
    requires (x & 0x80 != 0) == (y & 0x80 != 0) && (x & 0x40 != 0) == (y & 0x40 != 0)
    requires (x & 0x20 != 0) == (y & 0x20 != 0) && (x & 0x10 != 0) == (y & 0x10 != 0)
    requires (x & 0x08 != 0) == (y & 0x08 != 0) && (x & 0x04 != 0) == (y & 0x04 != 0)
    requires (x & 0x02 != 0) == (y & 0x02 != 0) && (x & 0x01 != 0) == (y & 0x01 != 0)
    ensures x == y
  {
  }

  lemma {:induction false} AllBitsAppend(a: seq<bv8>, b: seq<bv8>)
    ensures AllBits(a + b) == AllBits(a) + AllBits(b)
  {
    if b == [] {
      assert a + b == a;
    } else {
      var n := |b| - 1;
      assert (a + b)[..|a + b| - 1] == a + b[..n];
      AllBitsAppend(a, b[..n]);
    }
  }

  lemma {:induction false} AllBitsInjective(a: seq<bv8>, b: seq<bv8>)
    requires |a| == |b| && AllBits(a) == AllBits(b)
    ensures a == b
  {
    if a == [] {
    } else {
      var n := |a| - 1;
      var x, y := AllBits(a[..n]), AllBits(b[..n]);
      assert x == (x + Bits(a[n]))[..8 * n] == (y + Bits(b[n]))[..8 * n] == y;
      assert Bits(a[n]) == (x + Bits(a[n]))[8 * n..] == (y + Bits(b[n]))[8 * n..] == Bits(b[n]);
      AllBitsInjective(a[..n], b[..n]);
      BitsInjective(a[n], b[n]);
      assert a == a[..n] + [a[n]] && b == b[..n] + [b[n]];
    }
  }

  /** Messages of equal length that differ only at one byte or at two adjacent ones get different checksums. */
  lemma {:induction false} AdjacentBytesDetected(a: seq<bv8>, b: seq<bv8>, i: nat)
    requires |a| == |b| && a != b && i < |a|
    requires forall k | 0 <= k < |a| && k != i && k != i + 1 :: a[k] == b[k]
    ensures Crc(a) != Crc(b)
  {
    var j := if i + 2 <= |a| then i + 2 else i + 1;
    var before, x, y, after := a[..i], a[i..j], b[i..j], a[j..];
    assert a == before + x + after && b == before + y + after;
    if AllBits(x) == AllBits(y) {
      AllBitsInjective(x, y);
    }
    AllBitsAppend(before + x, after);
    AllBitsAppend(before, x);
    AllBitsAppend(before + y, after);
    AllBitsAppend(before, y);
    BurstDetected(ONES, AllBits(before), AllBits(x), AllBits(y), AllBits(after));
  }

  // ------------------------------------------------------------------ the loops over words

  function WordBit(w: bv16, mask: bv16): Bit {
    if w & mask != 0 then I else O
  }

  /** The bits of a 16-bit word. */
  function Word(w: bv16): Register {
    Register(
      WordBit(w, 0x8000), WordBit(w, 0x4000), WordBit(w, 0x2000), WordBit(w, 0x1000), WordBit(w, 0x0800), WordBit(w,
      0x0400), WordBit(w, 0x0200), WordBit(w, 0x0100), WordBit(w, 0x0080), WordBit(w, 0x0040), WordBit(w, 0x0020),
      WordBit(w, 0x0010), WordBit(w, 0x0008), WordBit(w, 0x0004), WordBit(w, 0x0002), WordBit(w, 0x0001))
  }

  lemma {:induction false} MaskShift(w: bv16, mask: bv16)
    requires mask & 0x8000 == 0
    ensures (w << 1) & (mask << 1) != 0 <==> w & mask != 0
  {
  }

  /** Shifting moves each bit up by one. */
  lemma {:induction false} ShiftBit(w: bv16, mask: bv16, up: bv16)
    requires mask & 0x8000 == 0 && up == mask << 1
    ensures WordBit(w << 1, up) == WordBit(w, mask)
  {
    MaskShift(w, mask);
  }

  lemma {:induction false} ShiftLow(w: bv16)
    ensures (w << 1) & 0x0001 == 0
  {
  }

  lemma {:induction false} ShiftBits(w: bv16)
    ensures WordBit(w << 1, 0x8000) == WordBit(w, 0x4000)
    ensures WordBit(w << 1, 0x4000) == WordBit(w, 0x2000)
    ensures WordBit(w << 1, 0x2000) == WordBit(w, 0x1000)
    ensures WordBit(w << 1, 0x1000) == WordBit(w, 0x0800)
    ensures WordBit(w << 1, 0x0800) == WordBit(w, 0x0400)
    ensures WordBit(w << 1, 0x0400) == WordBit(w, 0x0200)
    ensures WordBit(w << 1, 0x0200) == WordBit(w, 0x0100)
    ensures WordBit(w << 1, 0x0100) == WordBit(w, 0x0080)
    ensures WordBit(w << 1, 0x0080) == WordBit(w, 0x0040)
    ensures WordBit(w << 1, 0x0040) == WordBit(w, 0x0020)
    ensures WordBit(w << 1, 0x0020) == WordBit(w, 0x0010)
    ensures WordBit(w << 1, 0x0010) == WordBit(w, 0x0008)
    ensures WordBit(w << 1, 0x0008) == WordBit(w, 0x0004)
    ensures WordBit(w << 1, 0x0004) == WordBit(w, 0x0002)
    ensures WordBit(w << 1, 0x0002) == WordBit(w, 0x0001)
    ensures WordBit(w << 1, 0x0001) == O
  {
    ShiftBit(w, 0x4000, 0x8000);
    ShiftBit(w, 0x2000, 0x4000);
    ShiftBit(w, 0x1000, 0x2000);
    ShiftBit(w, 0x0800, 0x1000);
    ShiftBit(w, 0x0400, 0x0800);
    ShiftBit(w, 0x0200, 0x0400);
    ShiftBit(w, 0x0100, 0x0200);
    ShiftBit(w, 0x0080, 0x0100);
    ShiftBit(w, 0x0040, 0x0080);
    ShiftBit(w, 0x0020, 0x0040);
    ShiftBit(w, 0x0010, 0x0020);
    ShiftBit(w, 0x0008, 0x0010);
    ShiftBit(w, 0x0004, 0x0008);
    ShiftBit(w, 0x0002, 0x0004);
    ShiftBit(w, 0x0001, 0x0002);
    ShiftLow(w);
  }

  lemma {:induction false} MaskXor(a: bv16, b: bv16, mask: bv16)
    requires mask & (mask - 1) == 0
    ensures (a ^ b) & mask != 0 <==> (a & mask != 0) != (b & mask != 0)
  {
  }

  /** One bit of an exclusive or. */
  lemma {:induction false} XorBit(a: bv16, b: bv16, mask: bv16)
    requires mask & (mask - 1) == 0
    ensures WordBit(a ^ b, mask) == Flip(WordBit(a, mask), WordBit(b, mask))
  {
    MaskXor(a, b, mask);
  }

  /** Exclusive or of words is addition of registers. */
  lemma {:induction false} WordPlus(a: bv16, b: bv16)
    ensures Word(a ^ b) == Plus(Word(a), Word(b))
  {
    XorBit(a, b, 0x8000);
    XorBit(a, b, 0x4000);
    XorBit(a, b, 0x2000);
    XorBit(a, b, 0x1000);
    XorBit(a, b, 0x0800);
    XorBit(a, b, 0x0400);
    XorBit(a, b, 0x0200);
    XorBit(a, b, 0x0100);
    XorBit(a, b, 0x0080);
    XorBit(a, b, 0x0040);
    XorBit(a, b, 0x0020);
    XorBit(a, b, 0x0010);
    XorBit(a, b, 0x0008);
    XorBit(a, b, 0x0004);
    XorBit(a, b, 0x0002);
    XorBit(a, b, 0x0001);
  }

  /** Shifting a word shifts the register. */
  lemma {:induction false} WordShift(w: bv16)
    ensures Word(w << 1) == Shift(Word(w))
  {
    ShiftBits(w);
  }

  /** The branch of the inner loop that adds the polynomial. */
  lemma {:induction false} WordRoundOne(w: bv16)
    requires w & 0x8000 != 0
    ensures Word((w << 1) ^ 0x1021) == Round(Word(w))
  {
    WordShift(w);
    WordPlus(w << 1, 0x1021);
    PolyWord();
    ShiftRound(Word(w));
  }

  lemma {:induction false} WordRoundZero(w: bv16)
    requires w & 0x8000 == 0
    ensures Word(w << 1) == Round(Word(w))
  {
    WordShift(w);
    ShiftRound(Word(w));
  }

  const POLY := Register(O, O, O, I, O, O, O, O, O, O, I, O, O, O, O, I)

  lemma {:induction false} PolyWord()
    ensures Word(0x1021) == POLY
  {
  }

  function Shift(s: Register): Register {
    Register(s.b14, s.b13, s.b12, s.b11, s.b10, s.b9, s.b8, s.b7, s.b6, s.b5, s.b4, s.b3, s.b2, s.b1, s.b0, O)
  }

  /** A round is a shift, plus the polynomial when the bit shifted out is set. */
  lemma {:induction false} ShiftRound(s: Register)
    ensures Round(s) == if s.b15 == I then Plus(Shift(s), POLY) else Shift(s)
  {
    FlipZeros();
  }

  lemma {:induction false} FlipZeros()
    ensures forall x :: Flip(x, O) == x && Flip(O, x) == x
  {
  }

  lemma {:induction false} LoadedBits(x: bv8)
    ensures WordBit((x as bv16) << 8, 0x8000) == ByteBit(x, 0x80)
    ensures WordBit((x as bv16) << 8, 0x4000) == ByteBit(x, 0x40)
    ensures WordBit((x as bv16) << 8, 0x2000) == ByteBit(x, 0x20)
    ensures WordBit((x as bv16) << 8, 0x1000) == ByteBit(x, 0x10)
    ensures WordBit((x as bv16) << 8, 0x0800) == ByteBit(x, 0x08)
    ensures WordBit((x as bv16) << 8, 0x0400) == ByteBit(x, 0x04)
    ensures WordBit((x as bv16) << 8, 0x0200) == ByteBit(x, 0x02)
    ensures WordBit((x as bv16) << 8, 0x0100) == ByteBit(x, 0x01)
    ensures WordBit((x as bv16) << 8, 0x0080) == O
    ensures WordBit((x as bv16) << 8, 0x0040) == O
    ensures WordBit((x as bv16) << 8, 0x0020) == O
    ensures WordBit((x as bv16) << 8, 0x0010) == O
    ensures WordBit((x as bv16) << 8, 0x0008) == O
    ensures WordBit((x as bv16) << 8, 0x0004) == O
    ensures WordBit((x as bv16) << 8, 0x0002) == O
    ensures WordBit((x as bv16) << 8, 0x0001) == O
  {
  }

  /** Loading a byte adds its bits at the top of the register. */
  lemma {:induction false} WordLoad(w: bv16, x: bv8)
    ensures Word(w ^ ((x as bv16) << 8)) == Plus(Word(w), Packed(Bits(x)))
  {
    WordPlus(w, (x as bv16) << 8);
    LoadedBits(x);
  }

  /** Eight passes of the inner loop. */
  method EightRounds(loaded: bv16) returns (crc: bv16)
    ensures Word(crc) == Rounds(Word(loaded), 8)
  {
    crc := loaded;
    var k := 0;
    while k < 8
      invariant 0 <= k <= 8
      invariant Word(crc) == Rounds(Word(loaded), k)
    {
      RoundsExtend(Word(loaded), k);
      if crc & 0x8000 != 0 {
        WordRoundOne(crc);
        crc := (crc << 1) ^ 0x1021;
      } else {
        WordRoundZero(crc);
        crc := crc << 1;
      }
      k := k + 1;
    }
  }

  lemma {:induction false} LoadedByte(data: seq<bv8>, i: nat, w: bv16)
    requires i < |data| && Word(w) == Crc(data[..i])
    ensures Rounds(Word(w ^ ((data[i] as bv16) << 8)), 8) == Crc(data[..i + 1])
  {
    WordLoad(w, data[i]);
    FeedIsRounds(Word(w), Bits(data[i]));
    CrcExtend(data[..i], data[i]);
    assert data[..i + 1] == data[..i] + [data[i]];
  }

  /** The byte loop computes the checksum of the whole message. */
  method Compute(data: seq<bv8>) returns (crc: bv16)
    ensures Word(crc) == Crc(data)
  {
    crc := 0xFFFF;
    var i := 0;
    while i < |data|
      invariant 0 <= i <= |data|
      invariant Word(crc) == Crc(data[..i])
    {
      LoadedByte(data, i, crc);
      crc := EightRounds(crc ^ ((data[i] as bv16) << 8));
      i := i + 1;
    }
    assert data[..i] == data;
  }

  // ------------------------------------------------------------------ the catalogued check value

  lemma {:induction false} CrcExtend(data: seq<bv8>, x: bv8)
    ensures Crc(data + [x]) == Feed(Crc(data), Bits(x))
  {
    assert (data + [x])[..|data|] == data;
    FeedAppend(ONES, AllBits(data), Bits(x));
  }

  /** One more byte from a known state. */
  lemma {:induction false} KnownStep(data: seq<bv8>, w: bv16, x: bv8, next: bv16)
    requires Crc(data) == Word(w) && Rounds(Word(w ^ ((x as bv16) << 8)), 8) == Word(next)
    ensures Crc(data + [x]) == Word(next)
  {
    CrcExtend(data, x);
    WordLoad(w, x);
    FeedIsRounds(Word(w), Bits(x));
  }

  lemma {:induction false} KnownSteps1(data: seq<bv8>)
    requires Crc(data) == Word(0xFFFF)
    ensures Crc(data + [0x31] + [0x32] + [0x33]) == Word(0x5BCE)
  {
    KnownStep(data, 0xFFFF, 0x31, 0xC782);
    KnownStep(data + [0x31], 0xC782, 0x32, 0x3DBA);
    KnownStep(data + [0x31] + [0x32], 0x3DBA, 0x33, 0x5BCE);
  }

  lemma {:induction false} KnownSteps2(data: seq<bv8>)
    requires Crc(data) == Word(0x5BCE)
    ensures Crc(data + [0x34] + [0x35] + [0x36]) == Word(0x2EF4)
  {
    KnownStep(data, 0x5BCE, 0x34, 0x5349);
    KnownStep(data + [0x34], 0x5349, 0x35, 0x4560);
    KnownStep(data + [0x34] + [0x35], 0x4560, 0x36, 0x2EF4);
  }

  lemma {:induction false} KnownSteps3(data: seq<bv8>)
    requires Crc(data) == Word(0x2EF4)
    ensures Crc(data + [0x37] + [0x38] + [0x39]) == Word(0x29B1)
  {
    KnownStep(data, 0x2EF4, 0x37, 0x7718);
    KnownStep(data + [0x37], 0x7718, 0x38, 0xA12B);
    KnownStep(data + [0x37] + [0x38], 0xA12B, 0x39, 0x29B1);
  }

  /** The digits one to nine have the check value the CRC catalogue gives for these parameters. */
  lemma {:induction false} CheckValue(digits: seq<bv8>)
    requires digits == [0x31, 0x32, 0x33, 0x34, 0x35, 0x36, 0x37, 0x38, 0x39]
    ensures Crc(digits) == Word(0x29B1)
  {
    KnownSteps1([]);
    KnownSteps2([] + [0x31] + [0x32] + [0x33]);
    KnownSteps3([] + [0x31] + [0x32] + [0x33] + [0x34] + [0x35] + [0x36]);
    assert digits == [] + [0x31] + [0x32] + [0x33] + [0x34] + [0x35] + [0x36] + [0x37] + [0x38] + [0x39];
  }
}
