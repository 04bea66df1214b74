/** The 30-bit wire numbers of src/rtp.cpp:19-39 against the 64-bit numbers its loops reason with. */
module SequenceNumbers {

  /** `1 << 30`. */
  const WIRE := 0x4000_0000
  const UINT32 := 0x1_0000_0000

  /** Decoding, with the addition done in an unsigned 32-bit integer. */
  function Seq32To64(seqBase: int, wire: int): int {
    if wire < seqBase then (wire + WIRE) % UINT32 else wire
  }

  /** Encoding: a truncating remainder, converted to an unsigned 32-bit integer. */
  function Seq64To32(s: int): int {
    if s >= 0 then s % WIRE else (-((-s) % WIRE)) % UINT32
  }

  function IncSeq32(wire: int): int {
    ((wire + 1) % UINT32) % WIRE
  }

  /** The protocol functions are written once for both: `Wire` is what the program does,
      `Unbounded` is the same protocol with numbers that never wrap. */
  datatype Numbering = Wire | Unbounded

  function Decode(nb: Numbering, seqBase: int, wire: int): int {
    if nb.Wire? then Seq32To64(seqBase, wire) else wire
  }

  function Encode(nb: Numbering, s: int): int {
    if nb.Wire? then Seq64To32(s) else s
  }

  function Successor(nb: Numbering, wire: int): int {
    if nb.Wire? then IncSeq32(wire) else wire + 1
  }

  /** Decoding inverts encoding exactly on the 2^30 numbers that start at the base. */
  lemma DecodeEncode(seqBase: int, s: int)
    requires 0 <= seqBase < WIRE && 0 <= s
    ensures 0 <= Seq64To32(s) < WIRE
    ensures Seq32To64(seqBase, Seq64To32(s)) == s <==> seqBase <= s < seqBase + WIRE
  {
    var q, w := s / WIRE, s % WIRE;
    assert s == q * WIRE + w;
    if q == 0 {
    } else if q == 1 {
    } else {
      assert q * WIRE >= 2 * WIRE;
    }
  }

  /** With a base left 2^30 too high, a number below 2^30 decodes 2^30 too high and a wrapped one decodes to itself. */
  lemma DecodeEncodeHighBase(x: int, s: int)
    requires 0 <= x < WIRE && x <= s < x + WIRE
    ensures Seq32To64(x + WIRE, Seq64To32(s)) == if s < WIRE then s + WIRE else s
  {
    assert s % WIRE == if s < WIRE then s else s - WIRE;
  }

  lemma EncodePeriodic(s: int)
    requires 0 <= s
    ensures Seq64To32(s + WIRE) == Seq64To32(s)
  {
  }

  lemma SuccessorEncodes(nb: Numbering, s: int)
    requires 0 <= s < WIRE
    ensures Successor(nb, s) == Encode(nb, s + 1)
  {
  }

  /** Whatever the number, its encoding differs from it by a multiple of 2^30; it is below 2^30 for every number a
      connection has, and a negative number comes out at the top of the 32-bit range. */
  lemma EncodeCongruent(s: int)
    ensures (Seq64To32(s) - s) % 0x4000_0000 == 0
    ensures s >= 0 ==> 0 <= Seq64To32(s) < 0x4000_0000
    ensures s < 0 ==> Seq64To32(s) == 0 || 0xC000_0000 < Seq64To32(s) < 0x1_0000_0000
  {
    var r := if s >= 0 then s % WIRE else -((-s) % WIRE);
    var q := if s >= 0 then s / WIRE else -((-s) / WIRE);
    assert s == q * WIRE + r;
    DifferenceDivides(s, Seq64To32(s), q, if s < 0 && r < 0 then 4 else 0);
  }

  lemma DifferenceDivides(s: int, e: int, q: int, wraps: int)
    requires e - s == (wraps - q) * 0x4000_0000
    ensures (e - s) % 0x4000_0000 == 0
  {
  }

  /** Any base and any 32-bit number a peer may send: decoding adds 2^30 exactly to the numbers below the base, in
      32 bits. */
  lemma DecodeExactly(seqBase: int, wire: int)
    requires 0 <= wire < 0x1_0000_0000
    ensures Seq32To64(seqBase, wire) == wire <==> wire >= seqBase
    ensures wire < seqBase ==> 0 <= Seq32To64(seqBase, wire) < 0x1_0000_0000
    ensures wire < seqBase ==> Seq32To64(seqBase, wire) - wire in {0x4000_0000, 0x4000_0000 - 0x1_0000_0000}
  {
  }
}
