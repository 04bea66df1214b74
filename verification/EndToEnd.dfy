/** The pieces together: bytes under the protocol, and the two programs on top of it. */
module EndToEnd {
  import opened SequenceNumbers
  import opened Packets
  import opened Segmentation
  import opened TransferSystem
  import opened TransferInvariant
  import opened TransferTheorems
  import opened TransferEndings
  import opened RtpEndpoint
  import opened Routines
  import D = Datagram

  lemma PayloadFits(c: Config, p: Packet, k: int)
    requires Packed(c) && IsData(c, p, k)
    ensures |p.payload| <= PAYLOAD_MAX
  {
  }

  lemma ToReceiverFits(c: Config, z: System, p: Packet)
    requires Valid(c) && c.nb.Wire? && ToReceiver(c, z, p)
    ensures D.Fits(p)
  {
    ToReceiverOnWire(c, z, p);
    if p.flags == RTP_DAT {
      var k :| k < Next(c, z) && IsData(c, p, k);
      PayloadFits(c, p, k);
    }
  }

  lemma ToSenderFits(c: Config, z: System, p: Packet)
    requires Valid(c) && c.nb.Wire? && ToSender(c, z, p) && Expected(c, z) <= End(c)
    ensures D.Fits(p)
  {
    ToSenderOnWire(c, z, p);
  }

  /** Every packet of every run fits its struct: no field of its datagram is truncated, and the peer's recv_packet
      accepts it and reads it back, whatever its buffer held before. */
  lemma PacketsSurviveTheWire(c: Config, z: System, p: Packet, stale: D.Bytes)
    requires Valid(c) && Reachable(c, z) && c.nb.Wire? && (p in z.toR || p in z.toS) && |stale| == D.PACKET_SIZE
    ensures D.Fits(p)
    ensures var b := D.Received(stale, D.Datagram(p)); D.Accepts(b, |D.Datagram(p)|) && D.Parse(b) == p
  {
    if p in z.toR {
      InFlightToReceiver(c, z, p);
      ToReceiverFits(c, z, p);
    } else {
      InFlightToSender(c, z, p);
      ToSenderFits(c, z, p);
    }
    D.IntactAccepted(stale, p);
  }

  /** In every run, when the sender's program has returned from close, the receiver's program has written the file. */
  lemma ProgramsDeliver(c: Config, labels: seq<Label>)
    requires Valid(c) && Allowed(c, Init(c), labels)
    requires SenderRun(c, SenderTurns(labels)).s.phase.Closed?
    ensures ReceiverRun(c, ReceiverTurns(labels)).written == Some(Carried(c.file))
    ensures Carried(c.file) == c.file <==> |c.file| <= MAX_FILE
  {
    SenderOfRun(c, labels);
    ReceiverOfRun(c, labels);
    ReachableInit(c);
    RunReachable(c, Init(c), labels);
    CloseMeansWritten(c, Exec(c, Init(c), labels));
    CarriedIsFile(c.file);
  }

  /** The two programs on the class Rtp, fed with the turns of any run of the system: if the sending one returns 0,
      the receiving one has written the file. */
  method TransferFile(c: Config, labels: seq<Label>) returns (sent: Outcome, received: Outcome, written: Option<Bytes>)
    requires Valid(c) && c.nb.Wire? && Allowed(c, Init(c), labels)
    ensures sent == Returned(0) ==> written == Some(Carried(c.file))
    ensures sent == Returned(0) && |c.file| <= MAX_FILE ==> written == Some(c.file)
    ensures received == Returned(0) ==> written == Some(Carried(c.file))
    ensures sent == Returned(0) ==> received == Returned(0)
  {
    var sender, receiver;
    sender, sent := SenderRoutine(c, SenderTurns(labels));
    receiver, received, written := ReceiverRoutine(c, ReceiverTurns(labels));
    ProgramsAgree(c, labels);
  }

  lemma ProgramsAgree(c: Config, labels: seq<Label>)
    requires Valid(c) && Allowed(c, Init(c), labels)
    ensures SenderRun(c, SenderTurns(labels)).s.phase.Closed? ==>
              ReceiverRun(c, ReceiverTurns(labels)).m.r.phase.Done?
    ensures ReceiverRun(c, ReceiverTurns(labels)).m.r.phase.Done? ==>
              ReceiverRun(c, ReceiverTurns(labels)).written == Some(Carried(c.file))
    ensures Carried(c.file) == c.file <==> |c.file| <= MAX_FILE
  {
    var z := Exec(c, Init(c), labels);
    SenderOfRun(c, labels);
    ReceiverOfRun(c, labels);
    ReachableInit(c);
    RunReachable(c, Init(c), labels);
    ReachableInv(c, z);
    if z.s.phase.Closed? {
      ClosedIsWhole(c, z);
    }
    CarriedIsFile(c.file);
  }
}
