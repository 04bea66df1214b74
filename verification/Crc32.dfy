/** The CRC-32 of src/util.c: a bit-serial definition, the table-driven form with its complemented
    state and complemented table, and the class of errors that the checksum must catch.
    Bits are numbered as the wire numbers them: least significant bit of each byte first. */
module Crc32 {
  import opened RegisterAlgebra

  /** The reflected generator polynomial (section 8 of RFC 1952). */
  const POLYNOMIAL: bv32 := 0xEDB8_8320
  const ALL_ONES: bv32 := 0xFFFF_FFFF

  // ---------------------------------------------------------------- bit-serial definition

  function Xor(a: bv32, b: bv32): bv32 { a ^ b }

  /** One division step on a register whose low bit already holds the next message bit. */
  function Shift(register: bv32): bv32 {
    if register & 1 == 1 then (register >> 1) ^ POLYNOMIAL else register >> 1
  }

  function Double(register: bv32): bv32 { register << 1 }

  function BitWord(bit: bool): bv32 { if bit then 1 else 0 }

  predicate LowBit(register: bv32) { register & 1 == 1 }

  ghost const REGISTER: Algebra<bv32> := Algebra(Xor, Shift, Double, BitWord, LowBit, 0)

  function ByteBits(b: bv8): (bits: seq<bool>)
    ensures |bits| == 8
  {
    [b & 1 != 0, b & 2 != 0, b & 4 != 0, b & 8 != 0, b & 16 != 0, b & 32 != 0, b & 64 != 0, b & 128 != 0]
  }

  /** The bits of a message, byte by byte, least significant bit first. */
  function Bits(message: seq<bv8>): (bits: seq<bool>)
    ensures |bits| == 8 * |message|
  {
    if |message| == 0 then [] else Bits(message[..|message| - 1]) + ByteBits(message[|message| - 1])
  }

  /** Reflected CRC-32 with an all-ones start and a final complement (section 2.3.1 of RFC 1952). */
  ghost function Crc(message: seq<bv8>): bv32 {
    Xor(ALL_ONES, REGISTER.Feed(ALL_ONES, Bits(message)))
  }

  // ---------------------------------------------------------------- table-driven form

  /** One round of the loop in crc32_for_byte: the feedback is applied when the low bit is clear. */
  function TableRound(r: bv32): bv32 {
    (if r & 1 != 0 then 0 else POLYNOMIAL) ^ (r >> 1)
  }

  /** What crc32_for_byte returns. */
  function TableEntry(index: bv8): bv32 {
    Iterate(TableRound, index as bv32, 8) ^ 0xFF00_0000
  }

  function TableIndex(state: bv32, b: bv8): bv8 {
    ((state & 0xFF) as bv8) ^ b
  }

  /** The state of the crc32 loop after one more byte. */
  function TableStep(state: bv32, b: bv8): bv32 {
    TableEntry(TableIndex(state, b)) ^ (state >> 8)
  }

  /** The state of the crc32 loop after a whole message. */
  function TableRun(state: bv32, message: seq<bv8>): bv32 {
    if |message| == 0 then state else TableStep(TableRun(state, message[..|message| - 1]), message[|message| - 1])
  }

  // ---------------------------------------------------------------- laws of the register

  lemma XorAssociates(a: bv32, b: bv32, c: bv32)
    ensures Xor(Xor(a, b), c) == Xor(a, Xor(b, c))
  {
  }

  lemma XorCancels(a: bv32, b: bv32)
    ensures a ^ b == 0 <==> a == b
  {
  }

  lemma XorShift(a: bv32, b: bv32)
    ensures (a ^ b) >> 1 == (a >> 1) ^ (b >> 1)
    ensures (a ^ b) & 1 == (a & 1) ^ (b & 1)
    ensures (a & 1 == 0 || a & 1 == 1) && (b & 1 == 0 || b & 1 == 1)
  {
  }

  lemma XorRegroup(a: bv32, b: bv32, c: bv32)
    ensures (a ^ c) ^ (b ^ c) == a ^ b
    ensures (a ^ b) ^ c == (a ^ c) ^ b == a ^ (b ^ c)
  {
  }

  lemma ShiftLinear(a: bv32, b: bv32)
    ensures Shift(a ^ b) == Shift(a) ^ Shift(b)
  {
    XorShift(a, b);
    XorRegroup(a >> 1, b >> 1, POLYNOMIAL);
  }

  lemma DoubleLinear(a: bv32, b: bv32)
    ensures Double(Xor(a, b)) == Xor(Double(a), Double(b))
  {
  }

  lemma ShiftZero(a: bv32)
    ensures Shift(a) == 0 ==> a == 0
  {
  }

  lemma LowBitOfWord(b: bool, w: bv32)
    ensures LowBit(Xor(BitWord(b), Double(w))) == b
  {
  }

  lemma GroupLaws()
    ensures REGISTER.Group()
  {
    forall a, b, c ensures REGISTER.xor(REGISTER.xor(a, b), c) == REGISTER.xor(a, REGISTER.xor(b, c)) {
      XorAssociates(a, b, c);
    }
    forall a, b ensures REGISTER.xor(a, b) == REGISTER.zero <==> a == b {
      XorCancels(a, b);
    }
  }

  lemma RegisterShiftLinear(a: bv32, b: bv32)
    ensures REGISTER.shift(REGISTER.xor(a, b)) == REGISTER.xor(REGISTER.shift(a), REGISTER.shift(b))
  {
    ShiftLinear(a, b);
  }

  lemma LinearLaws()
    ensures REGISTER.Linear()
  {
    assert Shift(0) == 0 && Double(0) == 0;
    forall a, b ensures REGISTER.shift(REGISTER.xor(a, b)) == REGISTER.xor(REGISTER.shift(a), REGISTER.shift(b)) {
      RegisterShiftLinear(a, b);
    }
    forall a, b ensures REGISTER.double(REGISTER.xor(a, b)) == REGISTER.xor(REGISTER.double(a), REGISTER.double(b)) {
      DoubleLinear(a, b);
    }
  }

  lemma ReversibleLaws()
    ensures REGISTER.Reversible()
  {
    forall a ensures REGISTER.shift(a) == REGISTER.zero ==> a == REGISTER.zero {
      ShiftZero(a);
    }
    forall b, w ensures REGISTER.low(REGISTER.xor(REGISTER.bit(b), REGISTER.double(w))) == b {
      LowBitOfWord(b, w);
    }
  }

  lemma RegisterLaws()
    ensures REGISTER.Laws()
  {
    GroupLaws();
    LinearLaws();
    ReversibleLaws();
  }

  lemma DoubleHasRoom(w: bv32, places: nat)
    requires w & 0x8000_0000 == 0 && REGISTER.Room(w << 1, places)
    ensures REGISTER.Room(w, places + 1)
  {
    assert Shift(w << 1) == w;
    assert REGISTER.shift(REGISTER.double(w)) == w;
  }

  lemma MiddleHasRoom()
    ensures REGISTER.Room(0x0000_8000, 16)
  {
    DoubleHasRoom(0x4000_0000, 0);
    DoubleHasRoom(0x2000_0000, 1);
    DoubleHasRoom(0x1000_0000, 2);
    DoubleHasRoom(0x0800_0000, 3);
    DoubleHasRoom(0x0400_0000, 4);
    DoubleHasRoom(0x0200_0000, 5);
    DoubleHasRoom(0x0100_0000, 6);
    DoubleHasRoom(0x0080_0000, 7);
    DoubleHasRoom(0x0040_0000, 8);
    DoubleHasRoom(0x0020_0000, 9);
    DoubleHasRoom(0x0010_0000, 10);
    DoubleHasRoom(0x0008_0000, 11);
    DoubleHasRoom(0x0004_0000, 12);
    DoubleHasRoom(0x0002_0000, 13);
    DoubleHasRoom(0x0001_0000, 14);
    DoubleHasRoom(0x0000_8000, 15);
  }

  /** The register holds 32 message bits: a bit in the lowest place can be doubled 31 times. */
  lemma BitsHaveRoom()
    ensures REGISTER.BitsHaveRoom(31)
  {
    MiddleHasRoom();
    DoubleHasRoom(0x0000_4000, 16);
    DoubleHasRoom(0x0000_2000, 17);
    DoubleHasRoom(0x0000_1000, 18);
    DoubleHasRoom(0x0000_0800, 19);
    DoubleHasRoom(0x0000_0400, 20);
    DoubleHasRoom(0x0000_0200, 21);
    DoubleHasRoom(0x0000_0100, 22);
    DoubleHasRoom(0x0000_0080, 23);
    DoubleHasRoom(0x0000_0040, 24);
    DoubleHasRoom(0x0000_0020, 25);
    DoubleHasRoom(0x0000_0010, 26);
    DoubleHasRoom(0x0000_0008, 27);
    DoubleHasRoom(0x0000_0004, 28);
    DoubleHasRoom(0x0000_0002, 29);
    DoubleHasRoom(0x0000_0001, 30);
    LinearLaws();
    REGISTER.RoomZero(31);
  }

  // ---------------------------------------------------------------- table form == bit-serial form

  function Halve(w: bv32): bv32 { w >> 1 }

  predicate Even(w: bv32) { w & 1 == 0 }

  predicate Odd(w: bv32) { w & 1 == 1 }

  /** With `mask` naming the complemented low bits, a table round mirrors a shift. */
  lemma RoundMirrorsShift(r: bv32, mask: bv32)
    requires mask & 1 == 1
    ensures TableRound(r) ^ (mask >> 1) == Shift(r ^ mask)
  {
    XorShift(r, mask);
    XorRegroup(r >> 1, mask >> 1, POLYNOMIAL);
  }

  lemma HalvesOfOnes()
    ensures Iterate(Halve, 0xFF, 8) == 0
    ensures forall k: nat :: k < 8 ==> Odd(Iterate(Halve, 0xFF, k))
  {
    assert Iterate(Halve, 0xFF, 0) == 0xFF;
    assert Iterate(Halve, 0xFF, 1) == Iterate(Halve, 0x7F, 0) == 0x7F;
    assert Iterate(Halve, 0xFF, 2) == Iterate(Halve, 0x7F, 1) == 0x3F;
    assert Iterate(Halve, 0xFF, 3) == Iterate(Halve, 0x3F, 1) == 0x1F;
    assert Iterate(Halve, 0xFF, 4) == Iterate(Halve, 0x1F, 1) == 0x0F;
    assert Iterate(Halve, 0xFF, 5) == Iterate(Halve, 0x0F, 1) == 0x07;
    assert Iterate(Halve, 0xFF, 6) == Iterate(Halve, 0x07, 1) == 0x03;
    assert Iterate(Halve, 0xFF, 7) == Iterate(Halve, 0x03, 1) == 0x01;
  }

  lemma TableRoundsMirrorShifts(r: bv32)
    ensures Iterate(TableRound, r, 8) == REGISTER.Shifts(r ^ 0xFF, 8)
  {
    HalvesOfOnes();
    forall q, m | Odd(m) ensures Xor(TableRound(q), Halve(m)) == Shift(Xor(q, m)) {
      RoundMirrorsShift(q, m);
    }
    IterateMirrors(TableRound, Shift, Halve, Odd, Xor, r, 0xFF, 8);
    assert Xor(Iterate(TableRound, r, 8), 0) == Iterate(Shift, Xor(r, 0xFF), 8);
  }

  lemma ShiftRights(high: bv32)
    ensures (high >> 1) >> 1 == high >> 2 && (high >> 2) >> 1 == high >> 3 && (high >> 3) >> 1 == high >> 4
    ensures (high >> 4) >> 1 == high >> 5 && (high >> 5) >> 1 == high >> 6 && (high >> 6) >> 1 == high >> 7
    ensures (high >> 7) >> 1 == high >> 8
  {
  }

  lemma LowByteClear(high: bv32)
    requires high & 0xFF == 0
    ensures Even(high) && Even(high >> 1) && Even(high >> 2) && Even(high >> 3)
    ensures Even(high >> 4) && Even(high >> 5) && Even(high >> 6) && Even(high >> 7)
  {
  }

  lemma EvenFallsThrough(f: bv32 -> bv32, start: bv32, before: bv32, after: bv32, steps: nat)
    requires Iterate(f, start, steps) == before && f(before) == after
    ensures Iterate(f, start, steps + 1) == after
  {
    IterateLast(f, start, steps);
  }

  lemma FallThroughEight(f: bv32 -> bv32, high: bv32)
    requires forall w :: Even(w) ==> f(w) == w >> 1
    requires high & 0xFF == 0
    ensures Iterate(f, high, 8) == high >> 8
  {
    ShiftRights(high);
    LowByteClear(high);
    EvenFallsThrough(f, high, high, high >> 1, 0);
    EvenFallsThrough(f, high, high >> 1, high >> 2, 1);
    EvenFallsThrough(f, high, high >> 2, high >> 3, 2);
    EvenFallsThrough(f, high, high >> 3, high >> 4, 3);
    EvenFallsThrough(f, high, high >> 4, high >> 5, 4);
    EvenFallsThrough(f, high, high >> 5, high >> 6, 5);
    EvenFallsThrough(f, high, high >> 6, high >> 7, 6);
    EvenFallsThrough(f, high, high >> 7, high >> 8, 7);
  }

  /** Bits above the low byte come out of eight shifts unchanged. */
  lemma HighBitsFallThrough(high: bv32)
    requires high & 0xFF == 0
    ensures REGISTER.Shifts(high, 8) == high >> 8
  {
    forall w | Even(w) ensures Shift(w) == w >> 1 {
    }
    FallThroughEight(Shift, high);
  }

  function Place(b: bool, rest: bv32): bv32 { BitWord(b) ^ (rest << 1) }

  lemma NestedByte(b: bv8)
    ensures Place(b & 1 != 0, Place(b & 2 != 0, Place(b & 4 != 0, Place(b & 8 != 0, Place(b & 16 != 0,
            Place(b & 32 != 0, Place(b & 64 != 0, Place(b & 128 != 0, 0)))))))) == b as bv32
  {
  }

  lemma RegisterPlace(b: bool, rest: bv32)
    ensures REGISTER.Place(b, rest) == Place(b, rest)
  {
  }

  lemma ByteBitsWord(b: bv8)
    ensures REGISTER.Word(ByteBits(b)) == b as bv32
  {
    REGISTER.WordOfEight(ByteBits(b));
    forall bit, rest ensures REGISTER.Place(bit, rest) == Place(bit, rest) {
      RegisterPlace(bit, rest);
    }
    NestedByte(b);
  }

  /** The register with the byte added, as its low byte and the rest. */
  lemma SplitLowByte(register: bv32, b: bv8) returns (low: bv32, high: bv32)
    ensures Xor(register, b as bv32) == Xor(low, high) && high & 0xFF == 0
    ensures low == (register ^ (b as bv32)) & 0xFF && high == register & 0xFFFF_FF00
  {
    low, high := (register ^ (b as bv32)) & 0xFF, register & 0xFFFF_FF00;
  }

  lemma IndexComplementsLowByte(register: bv32, b: bv8, low: bv32)
    requires low == (register ^ (b as bv32)) & 0xFF
    ensures (TableIndex(ALL_ONES ^ register, b) as bv32) ^ 0xFF == low
  {
  }

  lemma HighBytesComplement(register: bv32, high: bv32)
    requires high == register & 0xFFFF_FF00
    ensures (high >> 8) ^ ALL_ONES == 0xFF00_0000 ^ ((ALL_ONES ^ register) >> 8)
  {
  }

  lemma TableEntryMirrors(index: bv8)
    ensures TableEntry(index) == REGISTER.Shifts((index as bv32) ^ 0xFF, 8) ^ 0xFF00_0000
  {
    TableRoundsMirrorShifts(index as bv32);
  }

  lemma TableStepFromLow(state: bv32, b: bv8, low: bv32)
    requires (TableIndex(state, b) as bv32) ^ 0xFF == low
    ensures TableStep(state, b) == (REGISTER.Shifts(low, 8) ^ 0xFF00_0000) ^ (state >> 8)
  {
    TableEntryMirrors(TableIndex(state, b));
  }

  lemma Reassemble(low: bv32, high: bv32, state: bv32)
    requires (high >> 8) ^ ALL_ONES == 0xFF00_0000 ^ (state >> 8)
    ensures (low ^ 0xFF00_0000) ^ (state >> 8) == ALL_ONES ^ (low ^ (high >> 8))
  {
  }

  lemma FeedByteSplits(register: bv32, b: bv8, low: bv32, high: bv32)
    requires Xor(register, b as bv32) == Xor(low, high) && high & 0xFF == 0
    ensures REGISTER.Feed(register, ByteBits(b)) == Xor(REGISTER.Shifts(low, 8), high >> 8)
  {
    RegisterLaws();
    BitsHaveRoom();
    ByteBitsWord(b);
    REGISTER.FeedIsWordFirst(register, ByteBits(b), 31);
    REGISTER.ShiftsLinear(low, high, 8);
    HighBitsFallThrough(high);
  }

  lemma SplitParts(register: bv32, b: bv8, state: bv32) returns (low: bv32, high: bv32)
    requires state == Xor(ALL_ONES, register)
    ensures Xor(register, b as bv32) == Xor(low, high) && high & 0xFF == 0
    ensures (TableIndex(state, b) as bv32) ^ 0xFF == low
    ensures (high >> 8) ^ ALL_ONES == 0xFF00_0000 ^ (state >> 8)
  {
    low, high := SplitLowByte(register, b);
    IndexComplementsLowByte(register, b, low);
    HighBytesComplement(register, high);
  }

  /** One byte through the table moves the complemented state exactly as eight bit steps move the standard one. */
  lemma TableStepDividesOneByte(register: bv32, b: bv8)
    ensures TableStep(Xor(ALL_ONES, register), b) == Xor(ALL_ONES, REGISTER.Feed(register, ByteBits(b)))
  {
    var state := Xor(ALL_ONES, register);
    var low, high := SplitParts(register, b, state);
    FeedByteSplits(register, b, low, high);
    TableStepFromLow(state, b, low);
    Reassemble(REGISTER.Shifts(low, 8), high, state);
  }

  /** The loop keeps its state the complement of the standard register, from any start and for any message. */
  lemma {:induction false} TableRunDivides(register: bv32, message: seq<bv8>)
    ensures TableRun(Xor(ALL_ONES, register), message) == Xor(ALL_ONES, REGISTER.Feed(register, Bits(message)))
    decreases |message|
  {
    if |message| > 0 {
      var front, last := message[..|message| - 1], message[|message| - 1];
      TableRunDivides(register, front);
      TableStepDividesOneByte(REGISTER.Feed(register, Bits(front)), last);
      REGISTER.FeedAppend(register, Bits(front), ByteBits(last));
    }
  }

  /** The checksum the loop computes from 0 is the bit-serial CRC-32. */
  lemma TableRunIsCrc(message: seq<bv8>)
    ensures TableRun(0, message) == Crc(message)
  {
    TableRunDivides(ALL_ONES, message);
    assert Xor(ALL_ONES, ALL_ONES) == 0;
  }

  // ---------------------------------------------------------------- errors the checksum must catch

  lemma ByteBitsInjective(a: bv8, b: bv8)
    requires ByteBits(a) == ByteBits(b)
    ensures a == b
  {
    var p, q := ByteBits(a), ByteBits(b);
    assert p[0] == q[0] && p[1] == q[1] && p[2] == q[2] && p[3] == q[3];
    assert p[4] == q[4] && p[5] == q[5] && p[6] == q[6] && p[7] == q[7];
    NestedByte(a);
    NestedByte(b);
  }

  lemma {:induction false} BitsInjective(a: seq<bv8>, b: seq<bv8>)
    requires |a| == |b| && Bits(a) == Bits(b)
    ensures a == b
    decreases |a|
  {
    if |a| > 0 {
      var n := |a| - 1;
      assert Bits(a)[..8 * n] == Bits(a[..n]) && Bits(b)[..8 * n] == Bits(b[..n]);
      assert Bits(a)[8 * n..] == ByteBits(a[n]) && Bits(b)[8 * n..] == ByteBits(b[n]);
      BitsInjective(a[..n], b[..n]);
      ByteBitsInjective(a[n], b[n]);
      assert a == a[..n] + [a[n]] && b == b[..n] + [b[n]];
    }
  }

  /** `a` and `b` have one length and agree outside the 32 consecutive bits that start at bit `from`. */
  ghost predicate DifferWithin32(a: seq<bv8>, b: seq<bv8>, from: nat) {
    && |a| == |b|
    && forall k :: 0 <= k < 8 * |a| && Bits(a)[k] != Bits(b)[k] ==> from <= k < from + 32
  }

  /** No error confined to 32 consecutive bits escapes the checksum, at any message length. */
  lemma BurstDetected(a: seq<bv8>, b: seq<bv8>, from: nat)
    requires a != b && DifferWithin32(a, b, from)
    ensures Crc(a) != Crc(b)
  {
    if Bits(a) == Bits(b) {
      BitsInjective(a, b);
      assert false;
    }
    RegisterLaws();
    BitsHaveRoom();
    REGISTER.WindowChangesRegister(ALL_ONES, Bits(a), Bits(b), from, 31);
    XorInjective(REGISTER.Feed(ALL_ONES, Bits(a)), REGISTER.Feed(ALL_ONES, Bits(b)));
  }

  lemma XorInjective(a: bv32, b: bv32)
    requires a != b
    ensures Xor(ALL_ONES, a) != Xor(ALL_ONES, b)
  {
  }

  // ---------------------------------------------------------------- the lazily filled table

  /** Entry 0 is not zero, so testing it tells a filled table from a fresh one. */
  lemma FirstEntryNonzero()
    ensures TableEntry(0) != 0
  {
    assert Iterate(TableRound, 0, 8) == Iterate(TableRound, 0xEDB8_8320, 7);
    assert Iterate(TableRound, 0xEDB8_8320, 7) == Iterate(TableRound, 0x9B64_C2B0, 6);
    assert Iterate(TableRound, 0x9B64_C2B0, 6) == Iterate(TableRound, 0xA00A_E278, 5);
    assert Iterate(TableRound, 0xA00A_E278, 5) == Iterate(TableRound, 0xBDBD_F21C, 4);
    assert Iterate(TableRound, 0xBDBD_F21C, 4) == Iterate(TableRound, 0xB366_7A2E, 3);
    assert Iterate(TableRound, 0xB366_7A2E, 3) == Iterate(TableRound, 0xB40B_BE37, 2);
    assert Iterate(TableRound, 0xB40B_BE37, 2) == Iterate(TableRound, 0x5A05_DF1B, 1);
    assert Iterate(TableRound, 0x5A05_DF1B, 1) == Iterate(TableRound, 0x2D02_EF8D, 0);
  }

  lemma TableRunExtends(start: bv32, data: seq<bv8>, i: nat)
    requires i < |data|
    ensures TableRun(start, data[..i + 1])
         == TableEntry(TableIndex(TableRun(start, data[..i]), data[i])) ^ (TableRun(start, data[..i]) >> 8)
  {
    assert data[..i + 1][..i] == data[..i];
  }

  // ---------------------------------------------------------------- the generator and the check value

  /** The generator of section 8 of RFC 1952: the coefficient of x^e is in bit 31 - e, and x^32 is left out. */
  lemma GeneratorExponents(e: nat)
    requires e < 32
    ensures (POLYNOMIAL >> (31 - e)) & 1 == 1 <==> e in {0, 1, 2, 4, 5, 7, 8, 10, 11, 12, 16, 22, 23, 26}
  {
  }

  lemma EightRounds(a: bv32, b: bv32, c: bv32, d: bv32, e: bv32, f: bv32, g: bv32, h: bv32, i: bv32)
    requires TableRound(a) == b && TableRound(b) == c && TableRound(c) == d && TableRound(d) == e
    requires TableRound(e) == f && TableRound(f) == g && TableRound(g) == h && TableRound(h) == i
    ensures Iterate(TableRound, a, 8) == i
  {
    assert Iterate(TableRound, a, 8) == Iterate(TableRound, b, 7) == Iterate(TableRound, c, 6);
    assert Iterate(TableRound, c, 6) == Iterate(TableRound, d, 5) == Iterate(TableRound, e, 4);
    assert Iterate(TableRound, e, 4) == Iterate(TableRound, f, 3) == Iterate(TableRound, g, 2);
    assert Iterate(TableRound, g, 2) == Iterate(TableRound, h, 1) == Iterate(TableRound, i, 0);
  }

  /** The digits 1 to 9 in ASCII. */
  const DIGITS: seq<bv8> := [0x31, 0x32, 0x33, 0x34, 0x35, 0x36, 0x37, 0x38, 0x39]

  /** The table loop over one more digit, with the eight rounds of its table entry. */
  lemma DigitStep(n: nat, state: bv32, index: bv8, b: bv32, c: bv32, d: bv32, e: bv32, f: bv32, g: bv32, h: bv32,
                  i: bv32, next: bv32)
    requires n < |DIGITS| && TableRun(0, DIGITS[..n]) == state && TableIndex(state, DIGITS[n]) == index
    requires TableRound(index as bv32) == b && TableRound(b) == c && TableRound(c) == d && TableRound(d) == e
    requires TableRound(e) == f && TableRound(f) == g && TableRound(g) == h && TableRound(h) == i
    requires (i ^ 0xFF00_0000) ^ (state >> 8) == next
    ensures TableRun(0, DIGITS[..n + 1]) == next
  {
    EightRounds(index as bv32, b, c, d, e, f, g, h, i);
    TableRunExtends(0, DIGITS, n);
  }

  lemma FirstDigits()
    ensures TableRun(0, DIGITS[..3]) == 0x8848_63D2
  {
    DigitStep(0, 0x0000_0000, 0x31, 0x0000_0018, 0xEDB8_832C, 0x9B64_C2B6, 0xA00A_E27B,
              0x5005_713D, 0x2802_B89E, 0xF9B9_DF6F, 0x7CDC_EFB7, 0x83DC_EFB7);
    DigitStep(1, 0x83DC_EFB7, 0x85, 0x0000_0042, 0xEDB8_8301, 0x76DC_4180, 0xD6D6_A3E0,
              0x86D3_D2D0, 0xAED1_6A48, 0xBAD0_3604, 0xB0D0_9822, 0x4F53_44CD);
    DigitStep(2, 0x4F53_44CD, 0xFE, 0xEDB8_835F, 0x76DC_41AF, 0x3B6E_20D7, 0x1DB7_106B,
              0x0EDB_8835, 0x076D_C41A, 0xEE0E_612D, 0x7707_3096, 0x8848_63D2);
  }

  lemma MiddleDigits()
    requires TableRun(0, DIGITS[..3]) == 0x8848_63D2
    ensures TableRun(0, DIGITS[..6]) == 0x0972_D361
  {
    DigitStep(3, 0x8848_63D2, 0xE6, 0xEDB8_8353, 0x76DC_41A9, 0x3B6E_20D4, 0xF00F_934A,
              0x95BF_4A85, 0x4ADF_A542, 0xC8D7_5181, 0x646B_A8C0, 0x9BE3_E0A3);
    DigitStep(4, 0x9BE3_E0A3, 0x96, 0xEDB8_836B, 0x76DC_41B5, 0x3B6E_20DA, 0xF00F_934D,
              0x7807_C9A6, 0xD1BB_67F3, 0x68DD_B3F9, 0x346E_D9FC, 0xCBF5_3A1C);
    DigitStep(5, 0xCBF5_3A1C, 0x2A, 0xEDB8_8335, 0x76DC_419A, 0xD6D6_A3ED, 0x6B6B_51F6,
              0xD80D_2BDB, 0x6C06_95ED, 0x3603_4AF6, 0xF6B9_265B, 0x0972_D361);
  }

  lemma LastDigits()
    requires TableRun(0, DIGITS[..6]) == 0x0972_D361
    ensures TableRun(0, DIGITS[..9]) == 0xCBF4_3926
  {
    DigitStep(6, 0x0972_D361, 0x56, 0xEDB8_830B, 0x76DC_4185, 0x3B6E_20C2, 0xF00F_9341,
              0x7807_C9A0, 0xD1BB_67F0, 0x8565_30D8, 0xAF0A_1B4C, 0x5003_699F);
    DigitStep(7, 0x5003_699F, 0xA7, 0x0000_0053, 0x0000_0029, 0x0000_0014, 0xEDB8_832A,
              0x9B64_C2B5, 0x4DB2_615A, 0xCB61_B38D, 0x65B0_D9C6, 0x9AE0_DAAF);
    DigitStep(8, 0x9AE0_DAAF, 0x96, 0xEDB8_836B, 0x76DC_41B5, 0x3B6E_20DA, 0xF00F_934D,
              0x7807_C9A6, 0xD1BB_67F3, 0x68DD_B3F9, 0x346E_D9FC, 0xCBF4_3926);
  }

  /** The check value that every CRC-32 has for the digits 1 to 9. */
  lemma CheckValue()
    ensures Crc(DIGITS) == 0xCBF4_3926
  {
    FirstDigits();
    MiddleDigits();
    LastDigits();
    assert DIGITS[..9] == DIGITS;
    TableRunIsCrc(DIGITS);
  }

  lemma IndexRoundTrip(i: bv8)
    ensures (i as int) as bv8 == i
  {
  }

  /** The function-static table of crc32, and the three functions of src/util.c. */
  class Checksum {
    const table: array<bv32>

    ghost predicate Filled()
      reads table
      requires table.Length == 256
    {
      forall i :: 0 <= i < 256 ==> table[i] == TableEntry(i as bv8)
    }

    ghost predicate Valid()
      reads table
    {
      table.Length == 256 && (table[0] != 0 ==> Filled())
    }

    constructor ()
      ensures Valid() && fresh(table)
    {
      table := new bv32[256](_ => 0);
    }

    static method Crc32ForByte(index: bv8) returns (r: bv32)
      ensures r == TableEntry(index)
    {
      r := index as bv32;
      for j := 0 to 8
        invariant r == Iterate(TableRound, index as bv32, j)
      {
        IterateLast(TableRound, index as bv32, j);
        r := TableRound(r);
      }
      r := r ^ 0xFF00_0000;
    }

    method Crc32(data: seq<bv8>, start: bv32) returns (crc: bv32)
      requires Valid()
      modifies table
      ensures Valid() && Filled()
      ensures crc == TableRun(start, data)
    {
      if table[0] == 0 {
        for i := 0 to 256
          invariant forall k :: 0 <= k < i ==> table[k] == TableEntry(k as bv8)
        {
          table[i] := Crc32ForByte(i as bv8);
        }
        FirstEntryNonzero();
      }
      crc := start;
      for i := 0 to |data|
        invariant Filled()
        invariant crc == TableRun(start, data[..i])
      {
        var index := TableIndex(crc, data[i]);
        IndexRoundTrip(index);
        TableRunExtends(start, data, i);
        crc := table[index as int] ^ (crc >> 8);
      }
      assert data[..|data|] == data;
    }

    /** The checksum of every packet is the bit-serial CRC-32 of its bytes. */
    method ComputeChecksum(packet: seq<bv8>) returns (crc: bv32)
      requires Valid()
      modifies table
      ensures Valid() && crc == Crc(packet)
    {
      crc := Crc32(packet, 0);
      TableRunIsCrc(packet);
    }
  }
}
