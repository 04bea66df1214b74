/** Small integers and bytes. */
module ByteNumbers {
  lemma ByteRoundTrip(n: int)
    requires 0 <= n < 256
    ensures (n as bv8) as int == n
  {
  }
}

/** Packets as bytes: the packed little-endian structs of src/rtp.h:32-48, the wrappers that fill them in place, and
    the checks recv_packet makes (src/rtp.cpp:98-201). */
module Datagram {
  import opened ByteNumbers
  import opened Packets
  import C = Crc32

  type Bytes = seq<bv8>

  /** `sizeof(RtpHeader)` and `sizeof(RtpPacket)`. */
  const HEADER_SIZE := 11
  const PACKET_SIZE := HEADER_SIZE + PAYLOAD_MAX

  // ---------------------------------------------------------------- fields

  function Int2(n: int): (b: Bytes)
    ensures |b| == 2
  {
    [(n % 256) as bv8, (n / 256 % 256) as bv8]
  }

  function Int4(n: int): (b: Bytes)
    ensures |b| == 4
  {
    Int2(n % 65536) + Int2(n / 65536)
  }

  function ReadInt2(b: Bytes): (n: nat)
    requires |b| == 2
    ensures n < 65536
  {
    b[0] as int + 256 * (b[1] as int)
  }

  function ReadInt4(b: Bytes): nat
    requires |b| == 4
  {
    ReadInt2(b[..2]) + 65536 * ReadInt2(b[2..])
  }

  lemma ReadsInt2(n: int)
    requires 0 <= n < 65536
    ensures ReadInt2(Int2(n)) == n
  {
    ByteRoundTrip(n % 256);
    ByteRoundTrip(n / 256);
  }

  lemma ReadsInt4(n: int)
    requires 0 <= n < 0x1_0000_0000
    ensures ReadInt4(Int4(n)) == n
  {
    ReadsInt2(n % 65536);
    ReadsInt2(n / 65536);
    assert Int4(n)[..2] == Int2(n % 65536) && Int4(n)[2..] == Int2(n / 65536);
  }

  function Word4(w: bv32): (b: Bytes)
    ensures |b| == 4
  {
    [(w & 0xFF) as bv8, ((w >> 8) & 0xFF) as bv8, ((w >> 16) & 0xFF) as bv8, ((w >> 24) & 0xFF) as bv8]
  }

  function Join4(b0: bv8, b1: bv8, b2: bv8, b3: bv8): bv32 {
    (b0 as bv32) | ((b1 as bv32) << 8) | ((b2 as bv32) << 16) | ((b3 as bv32) << 24)
  }

  function ReadWord4(b: Bytes): bv32
    requires |b| == 4
  {
    Join4(b[0], b[1], b[2], b[3])
  }

  lemma ReadsWord4(w: bv32)
    ensures ReadWord4(Word4(w)) == w
  {
  }

  /** The checksum field has its low byte first. */
  lemma JoinLowFirst(b0: bv8, b1: bv8, b2: bv8, b3: bv8)
    ensures var w := Join4(b0, b1, b2, b3);
            && w & 0xFF == b0 as bv32 && (w >> 8) & 0xFF == b1 as bv32
            && (w >> 16) & 0xFF == b2 as bv32 && w >> 24 == b3 as bv32
  {
  }

  lemma JoinsApart(a0: bv8, a1: bv8, a2: bv8, a3: bv8, b0: bv8, b1: bv8, b2: bv8, b3: bv8)
    requires Join4(a0, a1, a2, a3) == Join4(b0, b1, b2, b3)
    ensures a0 == b0 && a1 == b1 && a2 == b2 && a3 == b3
  {
  }

  lemma ReadWord4Injective(a: Bytes, b: Bytes)
    requires |a| == |b| == 4 && ReadWord4(a) == ReadWord4(b)
    ensures a == b
  {
    JoinsApart(a[0], a[1], a[2], a[3], b[0], b[1], b[2], b[3]);
  }

  // ---------------------------------------------------------------- a packet as a datagram

  const BLANK: Bytes := [0, 0, 0, 0]

  /** Every field is as wide as the struct has it. */
  predicate Fits(p: Packet) {
    0 <= p.number < 0x1_0000_0000 && 0 <= p.flags < 256 && |p.payload| <= PAYLOAD_MAX
  }

  function Frame(p: Packet, checksum: Bytes): (f: Bytes)
    requires Fits(p) && |checksum| == 4
    ensures |f| == HEADER_SIZE + |p.payload|
  {
    Int4(p.number) + Int2(|p.payload|) + checksum + [p.flags as bv8] + p.payload
  }

  /** What the wrappers make of a packet: its checksum is taken with the checksum field zero. */
  ghost function Datagram(p: Packet): (d: Bytes)
    requires Fits(p)
    ensures |d| == HEADER_SIZE + |p.payload|
  {
    Frame(p, Word4(C.Crc(Frame(p, BLANK))))
  }

  lemma FrameFields(p: Packet, checksum: Bytes)
    requires Fits(p) && |checksum| == 4
    ensures var f := Frame(p, checksum);
            && f[..4] == Int4(p.number) && f[4..6] == Int2(|p.payload|) && f[6..10] == checksum
            && f[10] == p.flags as bv8 && f[11..] == p.payload
  {
  }

  lemma Int4Bytes(n: int)
    requires 0 <= n < 0x1_0000_0000
    ensures var b := Int4(n);
            n == b[0] as int + 0x100 * (b[1] as int) + 0x1_0000 * (b[2] as int) + 0x100_0000 * (b[3] as int)
  {
    ReadsInt4(n);
    assert Int4(n)[..2] == [Int4(n)[0], Int4(n)[1]] && Int4(n)[2..] == [Int4(n)[2], Int4(n)[3]];
  }

  /** Where every field is on the wire: number, length and checksum with their low byte first, then the flags and
      the payload; the checksum is that of the datagram with zeros in its place. */
  lemma WireLayout(p: Packet)
    requires Fits(p)
    ensures var d := Datagram(p);
            && |d| == 11 + |p.payload| && d[11..] == p.payload && d[10] as int == p.flags
            && p.number == d[0] as int + 0x100 * (d[1] as int) + 0x1_0000 * (d[2] as int) + 0x100_0000 * (d[3] as int)
            && |p.payload| == d[4] as int + 0x100 * (d[5] as int)
            && C.Crc(d[..6] + [0, 0, 0, 0] + d[10..]) == Join4(d[6], d[7], d[8], d[9])
  {
    var d := Datagram(p);
    var checksum := Word4(C.Crc(Frame(p, BLANK)));
    FrameFields(p, checksum);
    ByteRoundTrip(p.flags);
    Int4Bytes(p.number);
    assert d[0] == d[..4][0] && d[1] == d[..4][1] && d[2] == d[..4][2] && d[3] == d[..4][3];
    ReadsInt2(|p.payload|);
    assert d[4] == d[4..6][0] && d[5] == d[4..6][1];
    BlankedFrame(p, checksum);
    ReadsWord4(C.Crc(Frame(p, BLANK)));
    assert d[6] == d[6..10][0] && d[7] == d[6..10][1] && d[8] == d[6..10][2] && d[9] == d[6..10][3];
  }

  /** The flags are the last byte of a header, with the values of src/rtp.h:23-29. */
  lemma WireFlags(number: int)
    requires 0 <= number < 0x1_0000_0000
    ensures forall flags :: flags in {1, 2, 3, 4, 6} ==>
              Fits(Header(number, flags)) && |Datagram(Header(number, flags))| == 11
    ensures RTP_SYN == 1 && RTP_ACK == 2 && RTP_SYN_ACK == 3 && RTP_FIN == 4 && RTP_FIN_ACK == 6 && RTP_DAT == 0
  {
  }

  /** A packet carries at most 1461 bytes, and then has 1472. */
  lemma WireSizes(number: int, payload: Bytes)
    requires 0 <= number < 0x1_0000_0000
    ensures Fits(Data(number, payload)) <==> |payload| <= 1461
    ensures |payload| == 1461 ==> |Datagram(Data(number, payload))| == PACKET_SIZE == 1472
  {
  }

  // ---------------------------------------------------------------- what recv_packet makes of a datagram

  function Min(a: nat, b: nat): nat { if a < b then a else b }

  /** recvfrom into a buffer that still holds the bytes of earlier packets. */
  function Received(stale: Bytes, data: Bytes): (b: Bytes)
    requires |stale| == PACKET_SIZE
    ensures |b| == PACKET_SIZE
  {
    var n := Min(|data|, PACKET_SIZE);
    data[..n] + stale[n..]
  }

  function LengthField(b: Bytes): nat
    requires |b| >= HEADER_SIZE
  {
    ReadInt2(b[4..6])
  }

  function Blanked(b: Bytes): (c: Bytes)
    requires |b| >= HEADER_SIZE
    ensures |c| == |b|
  {
    b[..6] + BLANK + b[10..]
  }

  /** The test of recv_packet, on the buffer after `received` bytes have come: it goes by the length field, also
      where that reaches into stale bytes. */
  ghost predicate Accepts(b: Bytes, received: nat)
    requires |b| == PACKET_SIZE
  {
    && received >= HEADER_SIZE
    && LengthField(b) <= PAYLOAD_MAX
    && C.Crc(Blanked(b)[..LengthField(b) + HEADER_SIZE]) == ReadWord4(b[6..10])
  }

  function Parse(b: Bytes): Packet
    requires |b| == PACKET_SIZE && LengthField(b) <= PAYLOAD_MAX
  {
    Packet(ReadInt4(b[..4]), b[10] as int, b[HEADER_SIZE..HEADER_SIZE + LengthField(b)])
  }

  /** `data` has the length of the packet's datagram, in its length field as well. */
  ghost predicate SameLength(p: Packet, data: Bytes)
    requires Fits(p)
  {
    |data| == HEADER_SIZE + |p.payload| && data[4..6] == Int2(|p.payload|)
  }

  lemma ReceivedFields(stale: Bytes, p: Packet, data: Bytes)
    requires |stale| == PACKET_SIZE && Fits(p) && SameLength(p, data)
    ensures var b := Received(stale, data);
            && LengthField(b) == |p.payload|
            && b[..4] == data[..4] && b[6..10] == data[6..10] && b[10] == data[10]
            && b[HEADER_SIZE..HEADER_SIZE + |p.payload|] == data[HEADER_SIZE..]
            && Blanked(b)[..LengthField(b) + HEADER_SIZE] == Blanked(data)
  {
    var b := Received(stale, data);
    ReceivedFront(stale, data);
    SliceOfFront(b, |data|, 0, 4);
    SliceOfFront(b, |data|, 4, 6);
    SliceOfFront(b, |data|, 6, 10);
    SliceOfFront(b, |data|, HEADER_SIZE, |data|);
    assert b[10] == b[..|data|][10];
    ReadsInt2(|p.payload|);
    BlankedFront(b, |data|);
  }

  lemma ReceivedFront(stale: Bytes, data: Bytes)
    requires |stale| == PACKET_SIZE && |data| <= PACKET_SIZE
    ensures Received(stale, data)[..|data|] == data
  {
    assert data[..|data|] == data;
  }

  lemma SliceOfFront(b: Bytes, n: nat, i: nat, j: nat)
    requires i <= j <= n <= |b|
    ensures b[i..j] == b[..n][i..j]
  {
  }

  lemma BlankedFront(b: Bytes, n: nat)
    requires HEADER_SIZE <= n <= |b|
    ensures Blanked(b)[..n] == Blanked(b[..n])
  {
    assert b[..6] == b[..n][..6] && b[10..][..n - 10] == b[..n][10..];
  }

  /** A full packet is not too long, and a bare header not too short. */
  lemma LimitsAccepted(b: Bytes)
    requires |b| == PACKET_SIZE && LengthField(b) <= 1461
    requires C.Crc(Blanked(b)[..LengthField(b) + HEADER_SIZE]) == ReadWord4(b[6..10])
    ensures LengthField(b) == 1461 ==> Accepts(b, 1472)
    ensures LengthField(b) == 0 ==> Accepts(b, 11)
  {
  }

  /** A datagram of the right length is accepted exactly if its checksum field is the CRC of its other bytes. */
  lemma AcceptsExactly(stale: Bytes, p: Packet, data: Bytes)
    requires |stale| == PACKET_SIZE && Fits(p) && SameLength(p, data)
    ensures Accepts(Received(stale, data), |data|) <==> C.Crc(Blanked(data)) == ReadWord4(data[6..10])
  {
    ReceivedFields(stale, p, data);
  }

  lemma BlankedFrame(p: Packet, checksum: Bytes)
    requires Fits(p) && |checksum| == 4
    ensures Blanked(Frame(p, checksum)) == Frame(p, BLANK) && SameLength(p, Frame(p, checksum))
  {
    FrameFields(p, checksum);
  }

  /** An intact packet is accepted and read back as it was, whatever the buffer held before. */
  lemma IntactAccepted(stale: Bytes, p: Packet)
    requires |stale| == PACKET_SIZE && Fits(p)
    ensures var b := Received(stale, Datagram(p)); Accepts(b, |Datagram(p)|) && Parse(b) == p
  {
    var checksum := Word4(C.Crc(Frame(p, BLANK)));
    BlankedFrame(p, checksum);
    FrameFields(p, checksum);
    AcceptsExactly(stale, p, Datagram(p));
    ReceivedFields(stale, p, Datagram(p));
    ReadsWord4(C.Crc(Frame(p, BLANK)));
    ReadsInt4(p.number);
    ByteRoundTrip(p.flags);
  }

  /** Any error confined to the checksum field is rejected. */
  lemma ChecksumErrorRejected(stale: Bytes, p: Packet, checksum: Bytes)
    requires |stale| == PACKET_SIZE && Fits(p) && |checksum| == 4
    requires Frame(p, checksum) != Datagram(p)
    ensures !Accepts(Received(stale, Frame(p, checksum)), |Frame(p, checksum)|)
  {
    BlankedFrame(p, checksum);
    FrameFields(p, checksum);
    AcceptsExactly(stale, p, Frame(p, checksum));
    var crc := C.Crc(Frame(p, BLANK));
    ReadsWord4(crc);
    if ReadWord4(checksum) == crc {
      ReadWord4Injective(checksum, Word4(crc));
      assert false;
    }
  }

  // ---------------------------------------------------------------- bursts

  lemma {:induction false} BitAt(m: Bytes, k: nat)
    requires k < 8 * |m|
    ensures C.Bits(m)[k] == C.ByteBits(m[k / 8])[k % 8]
    decreases |m|
  {
    var n := |m| - 1;
    if k < 8 * n {
      BitAt(m[..n], k);
    }
  }

  lemma BlankedBit(a: Bytes, b: Bytes, k: nat)
    requires |a| == |b| >= HEADER_SIZE && a[6..10] == b[6..10] && k < 8 * |a|
    requires C.Bits(Blanked(a))[k] != C.Bits(Blanked(b))[k]
    ensures C.Bits(a)[k] != C.Bits(b)[k]
  {
    BitAt(Blanked(a), k);
    BitAt(Blanked(b), k);
    BitAt(a, k);
    BitAt(b, k);
  }

  /** Any error confined to 32 consecutive bits outside the length and checksum fields is rejected, whatever the
      buffer held before. */
  lemma BurstRejected(stale: Bytes, p: Packet, data: Bytes, from: nat)
    requires |stale| == PACKET_SIZE && Fits(p)
    requires data != Datagram(p) && C.DifferWithin32(data, Datagram(p), from) && data[4..10] == Datagram(p)[4..10]
    ensures !Accepts(Received(stale, data), |data|)
  {
    var d := Datagram(p);
    var checksum := Word4(C.Crc(Frame(p, BLANK)));
    FrameFields(p, checksum);
    SameFields(data, d);
    BlankedFrame(p, checksum);
    AcceptsExactly(stale, p, data);
    ReadsWord4(C.Crc(Frame(p, BLANK)));
    BlankedDiffer(data, d, from);
    C.BurstDetected(Blanked(data), Blanked(d), from);
  }

  lemma SameFields(a: Bytes, b: Bytes)
    requires |a| == |b| >= HEADER_SIZE && a[4..10] == b[4..10]
    ensures a[4..6] == b[4..6] && a[6..10] == b[6..10]
  {
    assert a[4..6] == a[4..10][..2] && a[6..10] == a[4..10][2..];
    assert b[4..6] == b[4..10][..2] && b[6..10] == b[4..10][2..];
  }

  lemma BlankedDiffer(a: Bytes, b: Bytes, from: nat)
    requires |a| == |b| >= HEADER_SIZE && a != b && a[6..10] == b[6..10] && C.DifferWithin32(a, b, from)
    ensures Blanked(a) != Blanked(b) && C.DifferWithin32(Blanked(a), Blanked(b), from)
  {
    if Blanked(a) == Blanked(b) {
      Unblank(a);
      Unblank(b);
      assert false;
    }
    forall k: nat | k < 8 * |a| && C.Bits(Blanked(a))[k] != C.Bits(Blanked(b))[k] ensures from <= k < from + 32 {
      BlankedBit(a, b, k);
    }
  }

  lemma Unblank(a: Bytes)
    requires |a| >= HEADER_SIZE
    ensures a == Blanked(a)[..6] + a[6..10] + Blanked(a)[10..]
  {
  }

  // ---------------------------------------------------------------- in place

  function Overlay(s: Bytes, at: nat, bytes: Bytes): (r: Bytes)
    requires at + |bytes| <= |s|
    ensures |r| == |s|
  {
    s[..at] + bytes + s[at + |bytes|..]
  }

  function Zeros(n: nat): (z: Bytes)
    ensures |z| == n
  {
    seq(n, _ => 0)
  }

  /** memcpy into the struct, also for the assignment of a multi-byte field. */
  method Put(a: array<bv8>, at: nat, bytes: Bytes)
    requires at + |bytes| <= a.Length
    modifies a
    ensures a[..] == Overlay(old(a[..]), at, bytes)
  {
    var i := 0;
    while i < |bytes|
      invariant i <= |bytes| && a[..] == Overlay(old(a[..]), at, bytes[..i])
    {
      OverlayNext(old(a[..]), at, bytes, i);
      a[at + i] := bytes[i];
      i := i + 1;
    }
    assert bytes[..|bytes|] == bytes;
  }

  lemma OverlayNext(s: Bytes, at: nat, bytes: Bytes, i: nat)
    requires at + |bytes| <= |s| && i < |bytes|
    ensures Overlay(s, at, bytes[..i])[at + i := bytes[i]] == Overlay(s, at, bytes[..i + 1])
  {
  }

  method Clear(a: array<bv8>)
    modifies a
    ensures a[..] == Zeros(a.Length)
  {
    var i := 0;
    while i < a.Length
      invariant i <= a.Length && forall k :: 0 <= k < i ==> a[k] == 0
    {
      a[i] := 0;
      i := i + 1;
    }
  }

  /** Writing where the zeros begin. */
  lemma PutNext(front: Bytes, bytes: Bytes, rest: nat)
    ensures Overlay(front + Zeros(|bytes| + rest), |front|, bytes) == (front + bytes) + Zeros(rest)
  {
    var s := front + Zeros(|bytes| + rest);
    assert s[..|front|] == front;
    assert s[|front| + |bytes|..] == Zeros(rest);
  }

  /** The fields written one after the other into a cleared struct make the frame. */
  lemma FieldsMakeFrame(p: Packet, tail: nat)
    requires Fits(p)
    ensures var z0 := Zeros(HEADER_SIZE + |p.payload| + tail);
            var z1 := Overlay(z0, 0, Int4(p.number));
            var z2 := Overlay(z1, 4, Int2(|p.payload|));
            var z3 := Overlay(z2, 6, BLANK);
            var z4 := Overlay(z3, 10, [p.flags as bv8]);
            Overlay(z4, HEADER_SIZE, p.payload) == Frame(p, BLANK) + Zeros(tail)
  {
    FivePuts(Int4(p.number), Int2(|p.payload|), BLANK, [p.flags as bv8], p.payload, tail);
  }

  lemma FivePuts(a: Bytes, b: Bytes, c: Bytes, d: Bytes, e: Bytes, tail: nat)
    requires |a| == 4 && |b| == 2 && |c| == 4 && |d| == 1
    ensures var z1 := Overlay(Zeros(HEADER_SIZE + |e| + tail), 0, a);
            var z4 := Overlay(Overlay(Overlay(z1, 4, b), 6, c), 10, d);
            Overlay(z4, HEADER_SIZE, e) == a + b + c + d + e + Zeros(tail)
  {
    PutFirst(a, 7 + |e| + tail);
    PutNext(a, b, 5 + |e| + tail);
    PutNext(a + b, c, 1 + |e| + tail);
    PutNext(a + b + c, d, |e| + tail);
    PutNext(a + b + c + d, e, tail);
  }

  lemma PutFirst(bytes: Bytes, rest: nat)
    ensures Overlay(Zeros(|bytes| + rest), 0, bytes) == bytes + Zeros(rest)
  {
    assert Zeros(|bytes| + rest)[|bytes|..] == Zeros(rest);
  }

  lemma PutsCommute(s: Bytes, i: nat, a: Bytes, j: nat, b: Bytes)
    requires i + |a| <= j && j + |b| <= |s|
    ensures Overlay(Overlay(s, i, a), j, b) == Overlay(Overlay(s, j, b), i, a)
  {
  }

  lemma PutNothing(s: Bytes, at: nat)
    requires at <= |s|
    ensures Overlay(s, at, []) == s
  {
  }

  lemma ChecksumMakesDatagram(p: Packet, tail: nat)
    requires Fits(p)
    ensures var f := Frame(p, BLANK) + Zeros(tail);
            && f[..|p.payload| + HEADER_SIZE] == Frame(p, BLANK)
            && Overlay(f, 6, Word4(C.Crc(Frame(p, BLANK)))) == Datagram(p) + Zeros(tail)
  {
    FrameParts(p, BLANK);
    FrameParts(p, Word4(C.Crc(Frame(p, BLANK))));
    ReplaceMiddle(Front(p), BLANK, Word4(C.Crc(Frame(p, BLANK))), Back(p), Zeros(tail));
  }

  function Front(p: Packet): Bytes {
    Int4(p.number) + Int2(|p.payload|)
  }

  function Back(p: Packet): Bytes
    requires Fits(p)
  {
    [p.flags as bv8] + p.payload
  }

  lemma FrameParts(p: Packet, checksum: Bytes)
    requires Fits(p) && |checksum| == 4
    ensures Frame(p, checksum) == Front(p) + checksum + Back(p) && |Front(p)| == 6 && |Back(p)| == 1 + |p.payload|
  {
  }

  lemma ReplaceMiddle(a: Bytes, b: Bytes, c: Bytes, d: Bytes, e: Bytes)
    requires |b| == |c|
    ensures (a + b + d + e)[..|a + b + d|] == a + b + d
    ensures Overlay(a + b + d + e, |a|, c) == a + c + d + e
  {
    var s := a + b + d + e;
    assert s[..|a|] == a && s[|a| + |c|..] == d + e;
  }

  lemma WithoutTail(p: Packet)
    requires Fits(p)
    ensures Frame(p, BLANK) + Zeros(0) == Frame(p, BLANK)
    ensures Overlay(Frame(p, BLANK), 6, Word4(C.Crc(Frame(p, BLANK)))) == Datagram(p)
  {
    ChecksumMakesDatagram(p, 0);
    assert Frame(p, BLANK) + Zeros(0) == Frame(p, BLANK) && Datagram(p) + Zeros(0) == Datagram(p);
  }

  /** packet_wrapper: the first bytes of the struct are the datagram of a DAT packet, the rest is zero. */
  method PacketWrapper(pkt: array<bv8>, crc: C.Checksum, number: int, length: nat, payload: Bytes)
    requires pkt.Length == PACKET_SIZE && crc.Valid() && 0 <= number < 0x1_0000_0000
    requires length <= PAYLOAD_MAX && length <= |payload|
    modifies pkt, crc.table
    ensures crc.Valid()
    ensures pkt[..] == Datagram(Packet(number, RTP_DAT, payload[..length])) + Zeros(PAYLOAD_MAX - length)
  {
    ghost var p := Packet(number, RTP_DAT, payload[..length]);
    FillPacket(pkt, number, length, payload[..length], p);
    ChecksumMakesDatagram(p, PAYLOAD_MAX - length);
    var checksum := crc.ComputeChecksum(pkt[..length + HEADER_SIZE]);
    Put(pkt, 6, Word4(checksum));
  }

  /** The fields of a DAT packet, written into the cleared struct; the checksum field stays zero. */
  method FillPacket(pkt: array<bv8>, number: int, length: nat, payload: Bytes, ghost p: Packet)
    requires pkt.Length == PACKET_SIZE && Fits(p) && p == Packet(number, RTP_DAT, payload) && length == |payload|
    modifies pkt
    ensures pkt[..] == Frame(p, BLANK) + Zeros(PAYLOAD_MAX - length)
  {
    Clear(pkt);
    Put(pkt, 0, Int4(number));
    Put(pkt, 4, Int2(length));
    Put(pkt, 6, BLANK);
    Put(pkt, 10, [RTP_DAT as bv8]);
    Put(pkt, HEADER_SIZE, payload);
    FieldsMakeFrame(p, PAYLOAD_MAX - length);
  }

  /** header_wrapper: the struct is the datagram of a packet without payload. */
  method HeaderWrapper(header: array<bv8>, crc: C.Checksum, number: int, flags: nat)
    requires header.Length == HEADER_SIZE && crc.Valid() && 0 <= number < 0x1_0000_0000 && flags < 256
    modifies header, crc.table
    ensures crc.Valid() && header[..] == Datagram(Header(number, flags))
  {
    ghost var p := Header(number, flags);
    Clear(header);
    Put(header, 0, Int4(number));
    Put(header, 4, Int2(0));
    PutsCommute(header[..], 6, BLANK, 10, [flags as bv8]);
    Put(header, 10, [flags as bv8]);
    Put(header, 6, BLANK);
    PutNothing(header[..], HEADER_SIZE);
    FieldsMakeFrame(p, 0);
    WithoutTail(p);
    var checksum := crc.ComputeChecksum(header[..]);
    Put(header, 6, Word4(checksum));
  }

  /** recv_packet on what the socket holds, if anything: the number of bytes received if the packet is accepted and
      comes from the peer, -1 for a null buffer or if recvfrom fails, otherwise 0. `fromPeer` says that no peer is
      known yet or that the packet has the peer's address. */
  method RecvPacket(buffer: array?<bv8>, crc: C.Checksum, data: Option<Bytes>, fromPeer: bool) returns (ret: int)
    requires (buffer != null ==> buffer.Length == PACKET_SIZE) && crc.Valid()
    modifies buffer, crc.table
    ensures crc.Valid()
    ensures ret == -1 <==> buffer == null || data.None?
    ensures buffer != null && data.None? ==> buffer[..] == old(buffer[..])
    ensures buffer != null && data.Some? ==>
              var b := Received(old(buffer[..]), data.value);
              && ret == (if Accepts(b, |data.value|) && fromPeer then Min(|data.value|, PACKET_SIZE) else 0)
              && buffer[..] == if Accepts(b, |data.value|) || |data.value| < HEADER_SIZE then b else Blanked(b)
  {
    if buffer == null || data.None? {
      return -1;
    }
    var size := Accept(buffer, crc, data.value);
    return if fromPeer then size else 0;
  }

  /** The checksum of recv_packet: the number of bytes received if the packet is accepted, otherwise 0. */
  method Accept(buffer: array<bv8>, crc: C.Checksum, data: Bytes) returns (ret: nat)
    requires buffer.Length == PACKET_SIZE && crc.Valid()
    modifies buffer, crc.table
    ensures crc.Valid()
    ensures var b := Received(old(buffer[..]), data);
            && ret == (if Accepts(b, |data|) then Min(|data|, PACKET_SIZE) else 0)
            && buffer[..] == if Accepts(b, |data|) || |data| < HEADER_SIZE then b else Blanked(b)
  {
    var n := Min(|data|, PACKET_SIZE);
    Put(buffer, 0, data[..n]);
    ghost var b := Received(old(buffer[..]), data);
    assert buffer[..] == b;
    if n < HEADER_SIZE {
      return 0;
    }
    var checksum := buffer[6..10];
    Put(buffer, 6, BLANK);
    BlankAndBack(b);
    var length := ReadInt2(buffer[4..6]);
    if length > PAYLOAD_MAX {
      return 0;
    }
    var computed := crc.ComputeChecksum(buffer[..length + HEADER_SIZE]);
    if computed != ReadWord4(checksum) {
      return 0;
    }
    Put(buffer, 6, checksum);
    ret := n;
  }

  /** Clearing the checksum field leaves the length field alone, and putting the checksum back undoes it. */
  lemma BlankAndBack(b: Bytes)
    requires |b| == PACKET_SIZE
    ensures Overlay(b, 6, BLANK) == Blanked(b) && Blanked(b)[4..6] == b[4..6]
    ensures Overlay(Blanked(b), 6, b[6..10]) == b
  {
  }
}
