/** What a transfer promises, for every run over channels that lose, duplicate and reorder. */
module TransferTheorems {
  import opened SequenceNumbers
  import opened Packets
  import opened Segmentation
  import opened TransferSystem
  import opened TransferInvariant
  import R = ReceiverSide

  lemma InFlightToReceiver(c: Config, z: System, p: Packet)
    requires Valid(c) && Reachable(c, z) && p in z.toR
    ensures ToReceiver(c, z, p) && SenderOk(c, z) && ReceiverOk(c, z)
  {
    ReachableInv(c, z);
  }

  lemma InFlightToSender(c: Config, z: System, p: Packet)
    requires Valid(c) && Reachable(c, z) && p in z.toS
    ensures ToSender(c, z, p) && SenderOk(c, z) && ReceiverOk(c, z)
  {
    ReachableInv(c, z);
  }

  // ---------------------------------------------------------------- the file

  /** If recv_file returns 0, the bytes it wrote are the sender's file. */
  lemma FileDelivered(c: Config, z: System)
    requires Valid(c) && Reachable(c, z) && z.written.Some?
    ensures z.written.value == Carried(c.file)
    ensures z.written.value == c.file <==> |c.file| <= MAX_FILE
  {
    ReachableInv(c, z);
    CarriedIsFile(c.file);
  }

  /** At every moment of recv_file the contiguous payloads received so far are a prefix of what the sender carries. */
  lemma ReceivedIsPrefix(c: Config, z: System)
    requires Valid(c) && Reachable(c, z) && z.r.phase.Receiving?
    ensures forall k :: c.x + 1 + Shift(c) <= k < z.r.recvBase ==> k in z.r.dataMap
    ensures Payloads(z.r.dataMap, c.x + 1 + Shift(c), z.r.recvBase) <= Carried(c.file)
  {
    ReachableInv(c, z);
    PackedIsKeyed(c);
    PacketsAreFile(c);
    ContiguousPayloads(c, z);
  }

  lemma ContiguousPayloads(c: Config, z: System)
    requires Keyed(c) && MapOk(c, z) && z.r.recvBase == Expected(c, z) + Shift(c) && Expected(c, z) <= End(c)
    ensures Payloads(z.r.dataMap, c.x + 1 + Shift(c), z.r.recvBase) <= Payloads(c.packets, c.x + 1, End(c))
  {
    ContiguousSame(c, z);
    PrefixLike(c.packets, z.r.dataMap, c.x + 1, Expected(c, z), End(c), Shift(c));
  }

  // ---------------------------------------------------------------- FIN

  /** A FIN is in flight only when the receiver holds every packet, and it carries the number after the last one. */
  lemma FinMeansComplete(c: Config, z: System, p: Packet)
    requires Valid(c) && Reachable(c, z) && p in z.toR && p.flags == RTP_FIN
    ensures Base(c, z) == Expected(c, z) == Next(c, z) == End(c)
    ensures p == Header(Encode(c.nb, End(c)), RTP_FIN)
  {
    InFlightToReceiver(c, z, p);
    FinShape(c, z, p);
  }

  lemma FinShape(c: Config, z: System, p: Packet)
    requires ToReceiver(c, z, p) && p.flags == RTP_FIN
    ensures p == Header(Encode(c.nb, End(c)), RTP_FIN) && Base(c, z) == End(c)
  {
  }

  /** The early success exit (src/rtp.cpp:988-991) is never open: a latched FIN is never beyond the data received. */
  lemma NoEarlyExit(c: Config, z: System)
    requires Valid(c) && Reachable(c, z) && z.r.phase.Receiving?
    ensures z.r.fin.Some? ==> z.r.recvBase >= z.r.fin.value
    ensures forall t: Turn :: t.late ==> R.ReceivingTurn(c.nb, z.r, t).r.phase.Failed?
  {
    ReachableInv(c, z);
  }

  /** The receiver alone does take that exit: a FIN that arrives too early, then ten silent seconds,
      and recv_file_gbn returns 0 with the expected packet missing. */
  lemma EarlyExitFromStrangePeer(nb: Numbering, r: R.Receiver, fin: Packet)
    requires r.phase.Receiving? && r.connected && r.fin.None? && r.recvBase !in r.dataMap
    requires fin.flags == RTP_FIN && Decode(nb, r.seqBase, fin.number) > r.recvBase
    ensures var r1 := R.Iterate(nb, r, Turn(false, false, [fin], false)).r;
            var r2 := R.Iterate(nb, r1, Turn(true, false, [], false)).r;
            r2.phase.Received? && r2.recvBase == r.recvBase && r2.recvBase !in r2.dataMap
  {
    assert [fin][1..] == [];
    var latched := Some(Decode(nb, r.seqBase, fin.number));
    assert ReadUntil(nb, r.seqBase, true, latched, RTP_DAT, []) == Reading(latched, None);
    assert ReadUntil(nb, r.seqBase, true, None, RTP_DAT, [fin]) == Reading(latched, None);
    assert R.Iterate(nb, r, Turn(false, false, [fin], false)).r == r.(fin := latched);
  }

  /** For any peer: when recv_file_gbn returns 0 after the turns `turns`, everything before the FIN is in the map
      exactly if its last look at the clock was in time. */
  lemma {:induction false} SuccessCompleteExactly(nb: Numbering, r: R.Receiver, turns: seq<Turn>)
    requires r.phase.Receiving? && Gapless(r, r.recvBase) && |turns| > 0
    requires R.Run(nb, r, turns[..|turns| - 1]).r.phase.Receiving? && R.Run(nb, r, turns).r.phase.Received?
    ensures var y := R.Run(nb, r, turns).r;
            && y.fin.Some?
            && ((forall k :: r.recvBase <= k < y.fin.value ==> k in y.dataMap) <==> !turns[|turns| - 1].late)
  {
    var front := turns[..|turns| - 1];
    ReceivingGapless(nb, r, front);
    var y := R.Run(nb, r, turns).r;
    if turns[|turns| - 1].late {
      assert y.recvBase !in y.dataMap && r.recvBase <= y.recvBase < y.fin.value;
    }
  }

  /** From `first` on the map holds everything before `recvBase` and not `recvBase` itself. */
  ghost predicate Gapless(r: R.Receiver, first: int) {
    first <= r.recvBase && r.recvBase !in r.dataMap && forall k :: first <= k < r.recvBase ==> k in r.dataMap
  }

  lemma TurnGapless(nb: Numbering, r: R.Receiver, t: Turn, first: int)
    requires Gapless(r, first) && r.phase.Receiving?
    ensures Gapless(R.ReceivingTurn(nb, r, t).r, first)
  {
  }

  lemma OtherTurn(nb: Numbering, r: R.Receiver, t: Turn)
    requires r.phase.Received? || r.phase.Failed?
    ensures R.Iterate(nb, r, t).r == r
  {
  }

  lemma {:induction false} ReceivingGapless(nb: Numbering, r: R.Receiver, turns: seq<Turn>)
    requires r.phase.Receiving? && Gapless(r, r.recvBase)
    ensures Gapless(R.Run(nb, r, turns).r, r.recvBase)
    decreases |turns|
  {
    if |turns| > 0 {
      var front, last := turns[..|turns| - 1], turns[|turns| - 1];
      ReceivingGapless(nb, r, front);
      R.ReceivingPhase(nb, r, front);
      var y := R.Run(nb, r, front).r;
      if y.phase.Receiving? {
        TurnGapless(nb, y, last, r.recvBase);
      } else {
        OtherTurn(nb, y, last);
      }
    }
  }

  /** recv_file_gbn returns 0 only after a FIN, so the wait_close that follows answers it at once. */
  lemma WaitCloseImmediate(nb: Numbering, r: R.Receiver, t: Turn)
    requires r.phase.Receiving? && R.Iterate(nb, r, t).r.phase.Received?
    ensures R.StartWaitClose(nb, R.EndReceive(R.Iterate(nb, r, t).r)).r.phase.Done?
  {
  }

  /** If the sender's close returns 0, the receiver has written the whole file and its wait_close has returned. */
  lemma CloseMeansWritten(c: Config, z: System)
    requires Valid(c) && Reachable(c, z) && z.s.phase.Closed?
    ensures z.written.Some? && z.written.value == Carried(c.file)
  {
    ReachableInv(c, z);
  }

  /** The receiver computes the number of its FIN&ACK from the size of its map, and it is the number of the FIN. */
  lemma FinNumbersAgree(c: Config, z: System, p: Packet)
    requires Valid(c) && Reachable(c, z) && p in z.toS && p.flags == RTP_FIN_ACK
    ensures p.number == Encode(c.nb, End(c)) && z.written.Some?
    ensures z.s.phase.Closing? ==> p.number == Encode(c.nb, z.s.seqNum)
    ensures z.r.phase.Done? ==> p.number == Encode(c.nb, z.r.seqNum)
  {
    InFlightToSender(c, z, p);
    Numbers(c);
  }

  // ---------------------------------------------------------------- handshake

  /** When connect or wait_connect has returned 0, both sides hold x, up to a multiple of 2^30. */
  lemma HandshakeAgreement(c: Config, z: System)
    requires Valid(c) && Reachable(c, z)
    requires z.s.phase.Sending? || z.s.phase.Closing? || z.s.phase.Closed? || z.r.phase.Receiving? || z.r.phase.Done?
    ensures z.s.seqBase == c.x && z.r.connected
    ensures z.r.seqBase == c.x || z.r.seqBase == c.x + WIRE
    ensures z.r.phase.Receiving? ==> z.r.seqNum == z.r.seqBase
    ensures z.s.phase.Sending? ==> z.s.seqNum == c.x
  {
    ReachableInv(c, z);
  }

  /** After wait_connect, seq_base is x if it happened to be at most x before, and x + 2^30 otherwise. */
  lemma SeqBaseAfterHandshake(c: Config, z: System)
    requires Valid(c) && Reachable(c, z) && z.r.connected && c.nb.Wire?
    ensures z.r.seqBase == if c.r0.seqBase <= c.x then c.x else c.x + WIRE
  {
    ReachableInv(c, z);
  }

  /** No data is sent before the receiver has fixed its numbers. */
  lemma DataAfterSync(c: Config, z: System, p: Packet)
    requires Valid(c) && Reachable(c, z) && p in z.toR && p.flags == RTP_DAT
    ensures z.r.connected
  {
    ReachableInv(c, z);
    assert ToReceiver(c, z, p);
  }

  // ---------------------------------------------------------------- the window and the numbers in flight

  ghost predicate SentData(c: Config, z: System, p: Packet) {
    exists k :: c.x + 1 <= k < Next(c, z) && k in c.packets && p == c.packets[k]
  }

  ghost predicate PassedAck(c: Config, z: System, p: Packet) {
    exists k :: c.x <= k < Expected(c, z) && p == Header(Encode(c.nb, k), RTP_ACK)
  }

  /** The sender's base, the receiver's base and the sender's next number are in this order inside the file, every
      DAT in flight was sent, every ACK in flight acknowledges a number the receiver has passed, and the receiver's
      map is a part of the sender's. */
  ghost predicate Window(c: Config, z: System) {
    && c.x + 1 <= Base(c, z) <= Expected(c, z) <= Next(c, z) <= End(c) < c.x + WIRE
    && (forall p :: p in z.toR && p.flags == RTP_DAT ==> SentData(c, z, p))
    && (forall p :: p in z.toS && p.flags == RTP_ACK ==> PassedAck(c, z, p))
    && (z.r.phase.Receiving? ==>
          forall k :: k in z.r.dataMap ==> k - Shift(c) in c.packets && z.r.dataMap[k] == c.packets[k - Shift(c)])
  }

  lemma InvWindow(c: Config, z: System)
    requires InRange(c) && Inv(c, z)
    ensures Window(c, z)
  {
    forall p | p in z.toR && p.flags == RTP_DAT ensures SentData(c, z, p) {
      DataInFlight(c, z, p);
    }
    forall p | p in z.toS && p.flags == RTP_ACK ensures PassedAck(c, z, p) {
      AckInFlight(c, z, p);
    }
  }

  /** The joint window holds in every reachable state. */
  lemma JointWindow(c: Config, z: System)
    requires Valid(c) && Reachable(c, z)
    ensures Window(c, z)
  {
    ReachableInv(c, z);
    InvWindow(c, z);
  }

  lemma DataInFlight(c: Config, z: System, p: Packet)
    requires ToReceiver(c, z, p) && p.flags == RTP_DAT
    ensures SentData(c, z, p)
  {
    var k :| k < Next(c, z) && IsData(c, p, k);
  }

  lemma AckInFlight(c: Config, z: System, p: Packet)
    requires ToSender(c, z, p) && p.flags == RTP_ACK
    ensures PassedAck(c, z, p)
  {
    var k :| k < Expected(c, z) && IsAck(c, p, k);
  }

  predicate OnWire(c: Config, number: int) {
    && 0 <= number < WIRE
    && c.x <= Seq32To64(c.x, number) <= End(c)
    && Seq64To32(Seq32To64(c.x, number)) == number
  }

  lemma EncodedOnWire(c: Config, k: int)
    requires InRange(c) && c.nb.Wire? && c.x <= k <= End(c)
    ensures OnWire(c, Encode(c.nb, k))
  {
    Numbers(c);
    DecodeEncode(c.x, k);
    assert Decode(c.nb, c.x, Encode(c.nb, k)) == k;
  }

  lemma ToReceiverOnWire(c: Config, z: System, p: Packet)
    requires InRange(c) && c.nb.Wire? && ToReceiver(c, z, p)
    ensures OnWire(c, p.number)
  {
    EncodedOnWire(c, c.x);
    EncodedOnWire(c, c.x + 1);
    EncodedOnWire(c, End(c));
    if p.flags == RTP_DAT {
      var k :| k < Next(c, z) && IsData(c, p, k);
      EncodedOnWire(c, k);
    }
  }

  lemma ToSenderOnWire(c: Config, z: System, p: Packet)
    requires InRange(c) && c.nb.Wire? && ToSender(c, z, p) && Expected(c, z) <= End(c)
    ensures OnWire(c, p.number)
  {
    EncodedOnWire(c, c.x + 1);
    EncodedOnWire(c, End(c));
    if p.flags == RTP_ACK {
      var k :| k < Expected(c, z) && IsAck(c, p, k);
      EncodedOnWire(c, k);
    }
  }

  /** Every number ever put on the wire is a 30-bit encoding of a number of this transfer, and the sender's base
      recovers it, also when the transfer runs past 2^30. */
  lemma WireNumbers(c: Config, z: System, p: Packet)
    requires Valid(c) && Reachable(c, z) && c.nb.Wire? && (p in z.toR || p in z.toS)
    ensures OnWire(c, p.number)
  {
    if p in z.toR {
      InFlightToReceiver(c, z, p);
      ToReceiverOnWire(c, z, p);
    } else {
      InFlightToSender(c, z, p);
      ToSenderOnWire(c, z, p);
    }
  }
}
