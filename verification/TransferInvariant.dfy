/** What every step of the transfer keeps: one invariant over both endpoints and every packet ever sent. */
module TransferInvariant {
  import opened SequenceNumbers
  import opened Packets
  import opened Segmentation
  import opened Congestion
  import opened TransferSystem
  import S = SenderSide
  import R = ReceiverSide

  /** How much higher than the sender's the receiver's 64-bit numbers are: 2^30 if its seq_base was left above x. */
  function Shift(c: Config): int {
    if c.nb.Wire? && c.x < c.r0.seqBase then WIRE else 0
  }

  /** The number of the FIN: one past the last packet. */
  function End(c: Config): int {
    c.x + c.total + 1
  }

  function AtLeast(a: int, b: int): int {
    if a < b then b else a
  }

  /** The least unacknowledged number, the next one to send, and the next one the receiver expects. */
  function Base(c: Config, z: System): int { AtLeast(z.s.base, c.x + 1) }

  function Next(c: Config, z: System): int { AtLeast(z.s.next, c.x + 1) }

  function Expected(c: Config, z: System): int { AtLeast(z.r.recvBase - Shift(c), c.x + 1) }

  /** The receiver has taken the SYN and fixed its numbers. */
  predicate Synced(z: System) {
    z.r.connected
  }

  // ---------------------------------------------------------------- packets in flight

  ghost predicate IsData(c: Config, p: Packet, k: int) {
    && c.x + 1 <= k < End(c) && k in c.packets && p == c.packets[k]
    && p.flags == RTP_DAT && p.number == Encode(c.nb, k)
  }

  /** The sender's map has exactly the keys of the transfer, each with its own packet. */
  ghost predicate Keyed(c: Config) {
    && (forall k :: k in c.packets ==> IsData(c, c.packets[k], k))
    && (forall k :: c.x + 1 <= k < End(c) ==> k in c.packets)
  }

  lemma PackedIsKeyed(c: Config)
    requires Packed(c)
    ensures Keyed(c)
  {
    forall k | k in c.packets ensures IsData(c, c.packets[k], k) {
    }
  }

  ghost predicate ToReceiver(c: Config, z: System, p: Packet) {
    || p == Header(c.x, RTP_SYN)
    || (p == Header(Encode(c.nb, c.x + 1), RTP_ACK) && Synced(z))
    || (Synced(z) && exists k :: k < Next(c, z) && IsData(c, p, k))
    || (p == Header(Encode(c.nb, End(c)), RTP_FIN) && Synced(z) && Base(c, z) == End(c))
  }

  ghost predicate IsAck(c: Config, p: Packet, k: int) {
    c.x <= k && p == Header(Encode(c.nb, k), RTP_ACK)
  }

  ghost predicate ToSender(c: Config, z: System, p: Packet) {
    && Synced(z)
    && (|| p == Header(Encode(c.nb, c.x + 1), RTP_SYN_ACK)
        || (exists k :: k < Expected(c, z) && IsAck(c, p, k))
        || (p == Header(Encode(c.nb, End(c)), RTP_FIN_ACK) && z.written.Some?))
  }

  // ---------------------------------------------------------------- the two endpoints

  ghost predicate SenderOk(c: Config, z: System) {
    var s := z.s;
    && s.isn == c.x && s.seqBase == c.x && s.fin.None? && Good(s.cong)
    && Base(c, z) <= Next(c, z) <= End(c)
    && (s.phase.Connecting? ==> Next(c, z) == c.x + 1)
    && (s.phase.Settling? ==> s.seqNum == c.x && Synced(z) && Next(c, z) == c.x + 1)
    && (s.phase.Sending? ==>
          && s.seqNum == c.x && Synced(z) && s.dataMap == c.packets && s.highest == End(c) - 1
          && c.x + 1 <= s.base <= s.highest && s.base <= s.next)
    && (s.phase.Closing? ==> s.seqNum == End(c) && Base(c, z) == End(c) && Synced(z))
    && (s.phase.Closed? ==> z.written.Some?)
    && !s.phase.Connected? && !s.phase.Sent?
  }

  /** The receiver's map holds packets of the sender, everything before `recvBase` and nothing at it. */
  ghost predicate MapOk(c: Config, z: System) {
    var r := z.r;
    && (forall k :: k in r.dataMap ==> InFlight(c, z, k - Shift(c)) && IsData(c, r.dataMap[k], k - Shift(c)))
    && (forall k :: c.x + 1 + Shift(c) <= k < r.recvBase ==> k in r.dataMap)
    && r.recvBase !in r.dataMap
  }

  /** A number that has been sent, and that the receiver's base lets it decode as new. */
  ghost predicate InFlight(c: Config, z: System, k: int) {
    c.x + 1 <= k < Next(c, z) && (Shift(c) == 0 || k < WIRE)
  }

  ghost predicate ReceiverOk(c: Config, z: System) {
    var r := z.r;
    && Base(c, z) <= Expected(c, z) <= Next(c, z)
    && (Shift(c) == 0 || Expected(c, z) <= WIRE)
    && (!Synced(z) ==> (r.phase.Listening? || r.phase.Failed?) && r.recvBase == 0 && r.fin.None?)
    && (r.phase.Listening? ==> !Synced(z) && r.seqBase == c.r0.seqBase && r.dataMap == map[])
    && (Synced(z) ==> r.seqBase == c.x + Shift(c))
    && (r.phase.Accepting? ==>
          r.phase.reply == Encode(c.nb, c.x + 1) && r.seqNum == c.x + Shift(c) && r.dataMap == map[] && r.recvBase == 0)
    && (r.phase.Receiving? ==>
          r.seqNum == c.x + Shift(c) && r.recvBase == Expected(c, z) + Shift(c) && MapOk(c, z))
    && (r.fin.Some? ==> Base(c, z) == End(c) && r.fin.value <= End(c) + Shift(c))
    && (z.written.Some? ==> Synced(z) && Expected(c, z) == End(c) && z.written.value == Carried(c.file))
    && (z.written.Some? ==> r.phase.Done? || r.phase.Failed?)
    && (r.phase.Done? ==> z.written.Some? && r.seqNum == End(c) + Shift(c))
    && !r.phase.Accepted? && !r.phase.Received? && !r.phase.AwaitingFin? && !r.phase.Lingering?
  }

  ghost predicate Inv(c: Config, z: System) {
    && SenderOk(c, z)
    && ReceiverOk(c, z)
    && (forall p :: p in z.toR ==> ToReceiver(c, z, p))
    && (forall p :: p in z.toS ==> ToSender(c, z, p))
  }

  // ---------------------------------------------------------------- numbers of this transfer

  lemma Numbers(c: Config)
    requires InRange(c)
    ensures End(c) < c.x + WIRE
    ensures forall k :: c.x <= k <= End(c) ==> Decode(c.nb, c.x, Encode(c.nb, k)) == k
    ensures forall k :: c.x <= k <= End(c) ==>
      Decode(c.nb, c.x + Shift(c), Encode(c.nb, k)) == if Shift(c) == 0 || k < WIRE then k + Shift(c) else k
    ensures forall k :: c.x <= k <= End(c) ==> Encode(c.nb, k + Shift(c)) == Encode(c.nb, k)
    ensures Successor(c.nb, c.x) == Encode(c.nb, c.x + 1)
    ensures Decode(c.nb, c.r0.seqBase, c.x) == c.x + Shift(c) == Decode(c.nb, c.x + Shift(c), c.x)
    ensures Decode(c.nb, c.x, c.x) == c.x
  {
    SuccessorEncodes(c.nb, c.x);
    forall k | c.x <= k <= End(c)
      ensures Decode(c.nb, c.x, Encode(c.nb, k)) == k
      ensures Decode(c.nb, c.x + Shift(c), Encode(c.nb, k)) == if Shift(c) == 0 || k < WIRE then k + Shift(c) else k
      ensures Encode(c.nb, k + Shift(c)) == Encode(c.nb, k)
    {
      DecodeEncode(c.x, k);
      DecodeEncodeHighBase(c.x, k);
      EncodePeriodic(k);
    }
  }

  lemma InitInv(c: Config)
    requires InRange(c)
    ensures forall z :: Starts(c, z) ==> Inv(c, z)
  {
  }

  // ---------------------------------------------------------------- sender steps

  /** What a sender step may do to the rest of the system's invariant. */
  ghost predicate SenderAdvances(c: Config, z: System, y: System) {
    && y.r == z.r && y.written == z.written && y.toS == z.toS
    && SenderOk(c, y)
    && Base(c, z) <= Base(c, y) <= Expected(c, z)
    && Next(c, z) <= Next(c, y)
    && (forall p :: p in y.toR ==> p in z.toR || ToReceiver(c, y, p))
  }

  lemma SenderAdvanceKeeps(c: Config, z: System, y: System)
    requires Inv(c, z) && SenderAdvances(c, z, y)
    ensures Inv(c, y)
  {
    forall p | p in y.toR ensures ToReceiver(c, y, p) {
      if p in z.toR {
        assert ToReceiver(c, z, p);
      }
    }
    forall p | p in y.toS ensures ToSender(c, y, p) {
      assert ToSender(c, z, p);
    }
    assert y.r.phase.Receiving? ==> MapOk(c, y);
  }

  lemma SenderFinSilent(c: Config, z: System, flags: int, arrivals: seq<Packet>)
    requires Inv(c, z) && forall p :: p in arrivals ==> p in z.toS
    ensures ReadUntil(c.nb, z.s.seqBase, true, z.s.fin, flags, arrivals).fin == None
  {
    ReadUntilLatches(c.nb, z.s.seqBase, true, z.s.fin, flags, arrivals);
  }

  lemma ConnectingKeeps(c: Config, z: System, t: Turn)
    requires InRange(c) && Inv(c, z) && z.s.phase.Connecting?
    requires Enabled(z, SenderTurn(t))
    ensures Inv(c, StepSender(c, z, t)) && SenderAdvances(c, z, StepSender(c, z, t))
  {
    var y := StepSender(c, z, t);
    Numbers(c);
    SenderFinSilent(c, z, RTP_SYN_ACK, t.arrivals);
    var r := ReadUntil(c.nb, z.s.seqBase, true, z.s.fin, RTP_SYN_ACK, t.arrivals);
    if r.hit.Some? {
      assert ToSender(c, z, r.hit.value);
    }
    assert SenderAdvances(c, z, y);
    SenderAdvanceKeeps(c, z, y);
  }

  lemma StartSendShape(c: Config, z: System, t: Turn)
    requires Packed(c) && c.total > 0
    requires z.s.phase.Settling? && t.late && z.s.seqNum == c.x
    ensures StepSender(c, z, t)
         == z.(s := z.s.(phase := S.Sending, dataMap := c.packets, base := c.x + 1, next := c.x + 1,
                         highest := c.x + c.total))
  {
    assert z.toR + Sending([]) == z.toR;
  }

  lemma StartSendNothingShape(c: Config, z: System, t: Turn)
    requires Packed(c) && c.total == 0
    requires z.s.phase.Settling? && t.late && z.s.seqNum == c.x
    ensures StepSender(c, z, t)
         == z.(s := z.s.(phase := S.Closing, dataMap := map[], base := c.x + 1, next := c.x + 1, highest := c.x,
                         seqNum := End(c)),
               toR := z.toR + {Header(Encode(c.nb, End(c)), RTP_FIN)})
  {
    assert Sending([] + [Header(Encode(c.nb, End(c)), RTP_FIN)]) == {Header(Encode(c.nb, End(c)), RTP_FIN)};
  }

  /** The moment connect returns: an empty file goes straight on to the FIN. */
  lemma StartSendKeeps(c: Config, z: System, t: Turn)
    requires Valid(c) && Inv(c, z) && z.s.phase.Settling? && t.late
    ensures Inv(c, StepSender(c, z, t)) && SenderAdvances(c, z, StepSender(c, z, t))
  {
    if c.total == 0 {
      StartSendNothingShape(c, z, t);
    } else {
      StartSendShape(c, z, t);
    }
    SenderAdvanceKeeps(c, z, StepSender(c, z, t));
  }

  lemma SettlingKeeps(c: Config, z: System, t: Turn)
    requires InRange(c) && Inv(c, z) && z.s.phase.Settling? && !t.late
    requires Enabled(z, SenderTurn(t))
    ensures Inv(c, StepSender(c, z, t)) && SenderAdvances(c, z, StepSender(c, z, t))
  {
    var y := StepSender(c, z, t);
    Numbers(c);
    SenderFinSilent(c, z, RTP_SYN_ACK, t.arrivals);
    assert SenderAdvances(c, z, y);
    SenderAdvanceKeeps(c, z, y);
  }

  lemma CloseKeeps(c: Config, z: System, t: Turn)
    requires InRange(c) && Inv(c, z) && z.s.phase.Closing?
    requires Enabled(z, SenderTurn(t))
    ensures Inv(c, StepSender(c, z, t)) && SenderAdvances(c, z, StepSender(c, z, t))
  {
    var y := StepSender(c, z, t);
    SenderFinSilent(c, z, RTP_FIN_ACK, t.arrivals);
    var r := ReadUntil(c.nb, z.s.seqBase, true, z.s.fin, RTP_FIN_ACK, t.arrivals);
    if r.hit.Some? {
      assert ToSender(c, z, r.hit.value);
    }
    assert SenderAdvances(c, z, y);
    SenderAdvanceKeeps(c, z, y);
  }

  /** The ACK a turn of the send loop acts on acknowledges a number the receiver has passed. */
  lemma AckDecodes(c: Config, z: System, p: Packet) returns (k: int)
    requires InRange(c) && Inv(c, z) && p in z.toS && p.flags == RTP_ACK
    ensures c.x <= k < Expected(c, z) && Decode(c.nb, c.x, p.number) == k
  {
    assert ToSender(c, z, p);
    k :| k < Expected(c, z) && IsAck(c, p, k);
    Numbers(c);
  }

  ghost predicate AllData(c: Config, out: seq<Packet>, below: int) {
    forall p :: p in out ==> exists k :: k < below && IsData(c, p, k)
  }

  lemma StoredIsData(c: Config, lo: int, hi: int, below: int)
    requires Keyed(c)
    requires c.x + 1 <= lo && hi <= End(c) && hi <= below
    ensures AllData(c, S.Stored(c.packets, lo, hi), below)
  {
    forall p | p in S.Stored(c.packets, lo, hi) ensures exists k :: k < below && IsData(c, p, k) {
      var k :| lo <= k < hi && k in c.packets && p == c.packets[k];
    }
  }

  lemma AckShape(c: Config, s: S.Sender, ack: int, limit: int)
    requires Keyed(c)
    requires Good(s.cong) && c.x + 1 <= s.base <= limit && s.base < End(c) && ack < limit && limit <= End(c)
    requires s.dataMap == c.packets
    ensures var m := S.OnAck(s, ack);
            && m.s == s.(base := m.s.base, cong := m.s.cong, lastAck := m.s.lastAck)
            && Good(m.s.cong)
            && s.base <= m.s.base <= limit
            && AllData(c, m.out, s.base + 1)
  {
    ReactKeeps(s.cong, NewAck);
    ReactKeeps(s.cong, DupAck);
    StoredIsData(c, s.base, s.base + 1, s.base + 1);
  }

  lemma FillShape(c: Config, z: System, rto: bool)
    requires Keyed(c)
    requires Inv(c, z) && z.s.phase.Sending?
    ensures var m := S.FillWindow(z.s, rto);
            && m.s == z.s.(next := m.s.next, cong := m.s.cong)
            && Good(m.s.cong)
            && z.s.base < m.s.next && z.s.next <= m.s.next <= End(c)
            && AllData(c, m.out, m.s.next)
  {
    var next := S.FillTo(z.s.base, z.s.next, z.s.highest, z.s.cong.cwnd);
    ReactKeeps(z.s.cong, Timeout);
    StoredIsData(c, z.s.next, next, next);
    StoredIsData(c, z.s.base, next, next);
  }

  lemma AwaitShape(c: Config, z: System, s: S.Sender, arrivals: seq<Packet>)
    requires InRange(c) && Keyed(c) && Inv(c, z) && z.s.phase.Sending?
    requires s == z.s.(next := s.next, cong := s.cong) && Good(s.cong)
    requires forall p :: p in arrivals ==> p in z.toS
    ensures var m := S.AwaitAck(c.nb, s, arrivals);
            && m.s == s.(base := m.s.base, cong := m.s.cong, lastAck := m.s.lastAck, phase := m.s.phase)
            && Good(m.s.cong)
            && z.s.base <= m.s.base <= Expected(c, z)
            && m.s.phase == (if m.s.base < End(c) then S.Sending else S.Sent)
            && AllData(c, m.out, z.s.base + 1)
  {
    SenderFinSilent(c, z, RTP_ACK, arrivals);
    var r := ReadUntil(c.nb, s.seqBase, true, s.fin, RTP_ACK, arrivals);
    if r.hit.Some? {
      var k := AckDecodes(c, z, r.hit.value);
      AckShape(c, s, k, Expected(c, z));
    }
  }

  /** One turn of the send loop, seen from outside: the window moves forward inside the file, no further than
      the ACK it read, and only stored packets below the new `next` are sent. */
  lemma SendingTurnShape(c: Config, z: System, t: Turn, m: S.Move)
    requires InRange(c) && Keyed(c) && Inv(c, z) && z.s.phase.Sending? && !t.late
    requires Enabled(z, SenderTurn(t)) && m == S.SendingTurn(c.nb, z.s, t)
    ensures m.s == z.s.(base := m.s.base, next := m.s.next, cong := m.s.cong, lastAck := m.s.lastAck,
                        phase := m.s.phase)
    ensures Good(m.s.cong)
    ensures z.s.base <= m.s.base <= Expected(c, z)
    ensures z.s.base < m.s.next && z.s.next <= m.s.next <= End(c)
    ensures m.s.phase == if m.s.base < End(c) then S.Sending else S.Sent
    ensures AllData(c, m.out, m.s.next)
  {
    FillShape(c, z, t.rto);
    AwaitShape(c, z, S.FillWindow(z.s, t.rto).s, t.arrivals);
  }

  /** A turn of the send loop after which the loop goes on. */
  lemma SendingGoesOn(c: Config, z: System, t: Turn, m: S.Move)
    requires z.s.phase.Sending? && m == S.SendingTurn(c.nb, z.s, t) && m.s.phase.Sending?
    ensures StepSender(c, z, t) == z.(s := m.s, toR := z.toR + Sending(m.out))
  {
  }

  /** What the program does at the end of the send loop: send_file ends, and close sends the FIN. */
  lemma SentProgram(c: Config, m: S.Move)
    requires m.s.phase.Sent? && c.total == TotalPackets(c.file) && m.s.seqNum == c.x
    ensures SenderProgram(c, m)
         == S.Move(m.s.(phase := S.Closing, dataMap := map[], seqNum := End(c)),
                   m.out + [Header(Encode(c.nb, End(c)), RTP_FIN)])
  {
  }

  /** A turn of the send loop after which send_file ends and close sends the FIN. */
  lemma SendingEndsLoop(c: Config, z: System, t: Turn, m: S.Move)
    requires c.total == TotalPackets(c.file)
    requires z.s.phase.Sending? && m == S.SendingTurn(c.nb, z.s, t) && m.s.phase.Sent? && m.s.seqNum == c.x
    ensures StepSender(c, z, t)
         == z.(s := m.s.(phase := S.Closing, dataMap := map[], seqNum := End(c)),
               toR := z.toR + Sending(m.out + [Header(Encode(c.nb, End(c)), RTP_FIN)]))
  {
    SentProgram(c, m);
    StepSenderIs(c, z, t, m, SenderProgram(c, m));
  }

  lemma StepSenderIs(c: Config, z: System, t: Turn, k: S.Move, m: S.Move)
    requires k == S.Iterate(c.nb, z.s, t) && m == SenderProgram(c, k)
    ensures StepSender(c, z, t) == z.(s := m.s, toR := z.toR + Sending(m.out))
  {
  }

  /** The end of a turn of the send loop: either the loop goes on, or send_file ends and close sends the FIN. */
  lemma SendingStepShape(c: Config, z: System, t: Turn, m: S.Move)
    requires Packed(c)
    requires Inv(c, z) && z.s.phase.Sending? && m == S.SendingTurn(c.nb, z.s, t)
    requires m.s.seqNum == c.x && (m.s.phase.Sending? || m.s.phase.Sent?)
    ensures var y := StepSender(c, z, t);
            y == if m.s.phase.Sending? then z.(s := m.s, toR := z.toR + Sending(m.out))
                 else z.(s := m.s.(phase := S.Closing, dataMap := map[], seqNum := End(c)),
                         toR := z.toR + Sending(m.out + [Header(Encode(c.nb, End(c)), RTP_FIN)]))
  {
    if m.s.phase.Sending? {
      SendingGoesOn(c, z, t, m);
    } else {
      SendingEndsLoop(c, z, t, m);
    }
  }

  lemma SendingKeeps(c: Config, z: System, t: Turn)
    requires Valid(c) && Keyed(c) && Inv(c, z) && z.s.phase.Sending? && !t.late
    requires Enabled(z, SenderTurn(t))
    ensures Inv(c, StepSender(c, z, t)) && SenderAdvances(c, z, StepSender(c, z, t))
  {
    var m := S.SendingTurn(c.nb, z.s, t);
    SendingTurnShape(c, z, t, m);
    SendingStepShape(c, z, t, m);
    var y := StepSender(c, z, t);
    forall p | p in y.toR ensures p in z.toR || ToReceiver(c, y, p) {
      if p in m.out {
        var k :| k < m.s.next && IsData(c, p, k);
        assert k < Next(c, y);
      }
    }
    SenderAdvanceKeeps(c, z, y);
  }

  lemma SendingFails(c: Config, z: System, t: Turn)
    requires InRange(c) && Inv(c, z) && z.s.phase.Sending? && t.late
    ensures Inv(c, StepSender(c, z, t)) && SenderAdvances(c, z, StepSender(c, z, t))
  {
    var y := z.(s := z.s.(phase := S.Failed));
    assert StepSender(c, z, t) == y by {
      assert z.toR + Sending([]) == z.toR;
    }
    SenderAdvanceKeeps(c, z, y);
  }

  lemma SenderStepKeeps(c: Config, z: System, t: Turn)
    requires Valid(c) && Inv(c, z) && Enabled(z, SenderTurn(t))
    ensures Inv(c, StepSender(c, z, t)) && SenderAdvances(c, z, StepSender(c, z, t))
  {
    PackedIsKeyed(c);
    if z.s.phase.Connecting? {
      ConnectingKeeps(c, z, t);
    } else if z.s.phase.Settling? {
      if t.late {
        StartSendKeeps(c, z, t);
      } else {
        SettlingKeeps(c, z, t);
      }
    } else if z.s.phase.Sending? {
      if t.late {
        SendingFails(c, z, t);
      } else {
        SendingKeeps(c, z, t);
      }
    } else if z.s.phase.Closing? {
      CloseKeeps(c, z, t);
    } else {
      assert StepSender(c, z, t).toR == z.toR;
    }
  }

  // ---------------------------------------------------------------- receiver steps

  ghost predicate ReceiverAdvances(c: Config, z: System, y: System) {
    && y.s == z.s && y.toR == z.toR
    && ReceiverOk(c, y)
    && Expected(c, z) <= Expected(c, y)
    && (Synced(z) ==> Synced(y))
    && (z.written.Some? ==> y.written.Some?)
    && (forall p :: p in y.toS ==> p in z.toS || ToSender(c, y, p))
  }

  lemma ReceiverAdvanceKeeps(c: Config, z: System, y: System)
    requires Inv(c, z) && ReceiverAdvances(c, z, y)
    ensures Inv(c, y)
  {
    forall p | p in y.toR ensures ToReceiver(c, y, p) {
      assert ToReceiver(c, z, p);
    }
    forall p | p in y.toS ensures ToSender(c, y, p) {
      if p in z.toS {
        assert ToSender(c, z, p);
      }
    }
  }

  /** What a FIN latched by the receiver can be. */
  predicate FinOk(c: Config, z: System, fin: Option<int>) {
    fin.Some? ==> Base(c, z) == End(c) && fin.value <= End(c) + Shift(c)
  }

  lemma FinDecodes(c: Config, z: System, p: Packet)
    requires InRange(c) && ToReceiver(c, z, p) && p.flags == RTP_FIN
    ensures Base(c, z) == End(c) && Decode(c.nb, c.x + Shift(c), p.number) <= End(c) + Shift(c)
  {
    Numbers(c);
  }

  lemma ReceiverLatches(c: Config, z: System, flags: int, arrivals: seq<Packet>)
    requires InRange(c) && Inv(c, z) && Synced(z) && forall p :: p in arrivals ==> p in z.toR
    ensures FinOk(c, z, ReadUntil(c.nb, z.r.seqBase, true, z.r.fin, flags, arrivals).fin)
  {
    ReadUntilLatches(c.nb, z.r.seqBase, true, z.r.fin, flags, arrivals);
    forall p | p in arrivals && p.flags == RTP_FIN
      ensures Base(c, z) == End(c) && Decode(c.nb, z.r.seqBase, p.number) <= End(c) + Shift(c)
    {
      FinDecodes(c, z, p);
    }
  }

  lemma SynShape(c: Config, z: System, t: Turn)
    requires InRange(c) && Inv(c, z) && z.r.phase.Listening?
    requires Enabled(z, ReceiverTurn(t))
    ensures var m := R.Iterate(c.nb, z.r, t);
            && (m == R.Move(z.r, []) || m == R.Move(z.r.(phase := R.Failed), [])
                || m == R.Move(z.r.(phase := R.Accepting(Encode(c.nb, c.x + 1)), connected := true,
                                    seqBase := c.x + Shift(c), seqNum := c.x + Shift(c)),
                               [Header(Encode(c.nb, c.x + 1), RTP_SYN_ACK)]))
  {
    Numbers(c);
    ReadUntilLatches(c.nb, z.r.seqBase, z.r.connected, z.r.fin, RTP_SYN, t.arrivals);
    var q := ReadUntil(c.nb, z.r.seqBase, z.r.connected, z.r.fin, RTP_SYN, t.arrivals);
    if q.hit.Some? {
      assert ToReceiver(c, z, q.hit.value);
    }
  }

  lemma ListeningKeeps(c: Config, z: System, t: Turn)
    requires InRange(c) && Inv(c, z) && z.r.phase.Listening?
    requires Enabled(z, ReceiverTurn(t))
    ensures Inv(c, StepReceiver(c, z, t)) && ReceiverAdvances(c, z, StepReceiver(c, z, t))
  {
    SynShape(c, z, t);
    ReceiverAdvanceKeeps(c, z, StepReceiver(c, z, t));
  }

  lemma HandshakeAckShape(c: Config, z: System, t: Turn)
    requires InRange(c) && Inv(c, z) && z.r.phase.Accepting? && Synced(z)
    requires Enabled(z, ReceiverTurn(t))
    ensures var m := R.Iterate(c.nb, z.r, t);
            && m.r == z.r.(phase := m.r.phase, fin := m.r.fin) && FinOk(c, z, m.r.fin)
            && (m.r.phase == z.r.phase || m.r.phase.Accepted? || m.r.phase.Failed?)
            && (m.out == [] || m.out == [Header(Encode(c.nb, c.x + 1), RTP_SYN_ACK)])
  {
    ReceiverLatches(c, z, RTP_ACK, t.arrivals);
  }

  lemma AcceptingKeeps(c: Config, z: System, t: Turn)
    requires InRange(c) && Inv(c, z) && z.r.phase.Accepting? && Synced(z)
    requires Enabled(z, ReceiverTurn(t))
    ensures Inv(c, StepReceiver(c, z, t)) && ReceiverAdvances(c, z, StepReceiver(c, z, t))
  {
    HandshakeAckShape(c, z, t);
    ReceiverAdvanceKeeps(c, z, StepReceiver(c, z, t));
  }

  /** A DAT packet decodes to its number, shifted; a wrapped one behind a shifted base decodes below everything
      expected. */
  lemma DataDecodes(c: Config, z: System, p: Packet) returns (k: int)
    requires InRange(c) && ToReceiver(c, z, p) && p.flags == RTP_DAT
    ensures k < Next(c, z) && IsData(c, p, k)
    ensures Decode(c.nb, c.x + Shift(c), p.number) == if Shift(c) == 0 || k < WIRE then k + Shift(c) else k
  {
    k :| k < Next(c, z) && IsData(c, p, k);
    Numbers(c);
  }

  ghost predicate MapHolds(c: Config, z: System, dataMap: DataMap) {
    forall k :: k in dataMap ==> InFlight(c, z, k - Shift(c)) && IsData(c, dataMap[k], k - Shift(c))
  }

  /** Storing a DAT packet keeps every stored number one that was sent. */
  lemma StoreHolds(c: Config, z: System, r: R.Receiver, p: Packet)
    requires InRange(c) && ToReceiver(c, z, p) && p.flags == RTP_DAT
    requires MapHolds(c, z, r.dataMap) && r.seqBase == c.x + Shift(c) && r.recvBase > c.x + Shift(c)
    ensures MapHolds(c, z, R.Store(c.nb, r, p))
  {
    var k := DataDecodes(c, z, p);
  }

  lemma GapInside(c: Config, z: System, stored: DataMap, from: int)
    requires MapHolds(c, z, stored)
    requires from <= Next(c, z) + Shift(c) && (Shift(c) == 0 || from <= WIRE + Shift(c))
    ensures var g := R.FirstGap(stored.Keys, from);
            g <= Next(c, z) + Shift(c) && (Shift(c) == 0 || g <= WIRE + Shift(c))
  {
    var g := R.FirstGap(stored.Keys, from);
    if g > from {
      assert g - 1 in stored.Keys;
    }
  }

  /** After a DAT packet the contiguous part of the map still ends inside what was sent. */
  lemma DataShape(c: Config, z: System, r: R.Receiver, p: Packet)
    requires InRange(c) && ReceiverOk(c, z) && z.r.phase.Receiving? && Synced(z)
    requires r == z.r.(fin := r.fin) && ToReceiver(c, z, p) && p.flags == RTP_DAT
    ensures var m := R.OnData(c.nb, r, p);
            && MapOk(c, z.(r := m.r))
            && r.recvBase <= m.r.recvBase <= Next(c, z) + Shift(c)
            && (Shift(c) == 0 || m.r.recvBase <= WIRE + Shift(c))
  {
    StoreHolds(c, z, r, p);
    GapInside(c, z, R.Store(c.nb, r, p), r.recvBase);
  }

  /** The ACK acknowledges the number just below the one expected. */
  lemma AckIsOwn(c: Config, y: System)
    requires InRange(c) && ReceiverOk(c, y) && y.r.phase.Receiving? && Synced(y) && Next(c, y) <= End(c)
    ensures ToSender(c, y, Header(Encode(c.nb, y.r.recvBase - 1), RTP_ACK))
  {
    var k := Expected(c, y) - 1;
    Numbers(c);
    assert IsAck(c, Header(Encode(c.nb, k + Shift(c)), RTP_ACK), k);
  }

  lemma DataReceiverOk(c: Config, z: System, y: System, r: R.Receiver, p: Packet)
    requires InRange(c) && ReceiverOk(c, z) && z.r.phase.Receiving? && Synced(z)
    requires r == z.r.(fin := r.fin) && FinOk(c, z, r.fin) && ToReceiver(c, z, p) && p.flags == RTP_DAT
    requires var m := R.OnData(c.nb, r, p); y == z.(r := m.r, toS := z.toS + Sending(m.out))
    ensures ReceiverOk(c, y) && Expected(c, z) <= Expected(c, y)
  {
    DataShape(c, z, r, p);
  }

  lemma DataKeeps(c: Config, z: System, y: System, r: R.Receiver, p: Packet)
    requires InRange(c) && Inv(c, z) && z.r.phase.Receiving? && Synced(z)
    requires r == z.r.(fin := r.fin) && FinOk(c, z, r.fin)
    requires p in z.toR && p.flags == RTP_DAT
    requires var m := R.OnData(c.nb, r, p); y == z.(r := m.r, toS := z.toS + Sending(m.out))
    ensures Inv(c, y) && ReceiverAdvances(c, z, y)
  {
    DataReceiverOk(c, z, y, r, p);
    AckIsOwn(c, y);
    ReceiverAdvanceKeeps(c, z, y);
  }

  ghost predicate Full(c: Config, z: System) {
    MapOk(c, z) && z.r.recvBase == End(c) + Shift(c) && Next(c, z) <= End(c)
  }

  lemma FullMapKeys(c: Config, z: System)
    requires Full(c, z)
    ensures KeysAre(z.r.dataMap, c.x + 1 + Shift(c), End(c) + Shift(c))
  {
  }

  lemma ContiguousSame(c: Config, z: System)
    requires Keyed(c) && MapOk(c, z)
    ensures AllSame(c.packets, z.r.dataMap, c.x + 1, z.r.recvBase - Shift(c), Shift(c))
  {
    forall k | c.x + 1 <= k < z.r.recvBase - Shift(c)
      ensures PayloadAt(c.packets, k) == PayloadAt(z.r.dataMap, k + Shift(c))
    {
      ContiguousPayload(c, z, k + Shift(c));
    }
  }

  lemma ContiguousPayload(c: Config, z: System, j: int)
    requires Keyed(c) && MapOk(c, z) && c.x + 1 + Shift(c) <= j < z.r.recvBase
    ensures PayloadAt(c.packets, j - Shift(c)) == PayloadAt(z.r.dataMap, j)
  {
    assert j in z.r.dataMap;
    assert IsData(c, z.r.dataMap[j], j - Shift(c));
  }

  lemma PacketsAreFile(c: Config)
    requires Packed(c)
    ensures Payloads(c.packets, c.x + 1, End(c)) == Carried(c.file)
  {
    PayloadsAreCarried(c.nb, c.x + 1, c.file);
  }

  lemma FullMapInOrder(c: Config, z: System)
    requires Keyed(c) && Full(c, z)
    ensures InOrder(z.r.dataMap) == Payloads(c.packets, c.x + 1, End(c)) && |z.r.dataMap| == c.total
  {
    FullMapKeys(c, z);
    ContiguousSame(c, z);
    InOrderLike(c.packets, z.r.dataMap, c.x + 1, End(c), Shift(c));
  }

  /** A map that holds every packet up to the end is written as the file. */
  lemma FullMapIsFile(c: Config, z: System)
    requires Packed(c) && Keyed(c) && Full(c, z)
    ensures InOrder(z.r.dataMap) == Carried(c.file) && |z.r.dataMap| == c.total
  {
    FullMapInOrder(c, z);
    PacketsAreFile(c);
  }

  /** The end of recv_file after a complete transfer, and the answer of wait_close to the FIN. */
  lemma FinishMove(c: Config, r: R.Receiver)
    requires InRange(c) && r.fin.Some? && r.seqNum == c.x + Shift(c) && |r.dataMap| == c.total
    ensures R.StartWaitClose(c.nb, R.EndReceive(r.(phase := R.Received)))
         == R.Move(r.(phase := R.Done, dataMap := map[], seqNum := End(c) + Shift(c)),
                   [Header(Encode(c.nb, End(c)), RTP_FIN_ACK)])
  {
    Numbers(c);
  }

  lemma FinishAdvances(c: Config, z: System, y: System)
    requires InRange(c) && Inv(c, z) && z.r.phase.Receiving? && Synced(z) && z.r.fin.Some?
    requires y == z.(r := z.r.(phase := R.Done, dataMap := map[], seqNum := End(c) + Shift(c)),
                     written := Some(Carried(c.file)),
                     toS := z.toS + Sending([Header(Encode(c.nb, End(c)), RTP_FIN_ACK)]))
    ensures ReceiverAdvances(c, z, y)
  {
  }

  /** The regular end of recv_file, and the FIN&ACK that wait_close sends at once. */
  lemma FinishKeeps(c: Config, z: System, y: System)
    requires Valid(c) && Inv(c, z) && z.r.phase.Receiving? && Synced(z) && z.r.fin.Some?
    requires var m := R.StartWaitClose(c.nb, R.EndReceive(z.r.(phase := R.Received)));
             y == z.(r := m.r, written := Some(InOrder(z.r.dataMap)), toS := z.toS + Sending(m.out))
    ensures Inv(c, y) && ReceiverAdvances(c, z, y)
  {
    PackedIsKeyed(c);
    FullMapIsFile(c, z);
    FinishMove(c, z.r);
    FinishAdvances(c, z, y);
    ReceiverAdvanceKeeps(c, z, y);
  }

  lemma FinishShape(c: Config, z: System, t: Turn)
    requires z.r.phase.Receiving? && !t.late && z.r.fin.Some? && z.r.recvBase >= z.r.fin.value
    ensures var m := R.StartWaitClose(c.nb, R.EndReceive(z.r.(phase := R.Received)));
            StepReceiver(c, z, t) == z.(r := m.r, written := Some(InOrder(z.r.dataMap)), toS := z.toS + Sending(m.out))
  {
    var m := R.StartWaitClose(c.nb, R.EndReceive(z.r.(phase := R.Received)));
    assert [] + m.out == m.out;
  }

  lemma LateShape(c: Config, z: System, t: Turn)
    requires ReceiverOk(c, z) && z.r.phase.Receiving? && t.late
    ensures StepReceiver(c, z, t) == z.(r := z.r.(phase := R.Failed))
  {
    assert z.toS + Sending([]) == z.toS;
  }

  lemma LateKeeps(c: Config, z: System, t: Turn)
    requires Inv(c, z) && z.r.phase.Receiving? && t.late
    ensures Inv(c, StepReceiver(c, z, t)) && ReceiverAdvances(c, z, StepReceiver(c, z, t))
  {
    LateShape(c, z, t);
    ReceiverAdvanceKeeps(c, z, StepReceiver(c, z, t));
  }

  /** A turn in time, before the FIN: what waitfor read decides. */
  lemma ReadShape(c: Config, z: System, t: Turn, q: Reading)
    requires z.r.phase.Receiving? && !t.late && !(z.r.fin.Some? && z.r.recvBase >= z.r.fin.value)
    requires q == ReadUntil(c.nb, z.r.seqBase, z.r.connected, z.r.fin, RTP_DAT, t.arrivals)
    ensures StepReceiver(c, z, t)
         == if q.hit.Some? then DataStep(c, z, z.r.(fin := q.fin), q.hit.value) else z.(r := z.r.(fin := q.fin))
  {
    assert z.toS + Sending([]) == z.toS;
  }

  /** `z` after the receiver `r` has taken the DAT packet `p`. */
  ghost function DataStep(c: Config, z: System, r: R.Receiver, p: Packet): System {
    var m := R.OnData(c.nb, r, p);
    z.(r := m.r, toS := z.toS + Sending(m.out))
  }

  lemma LatchKeeps(c: Config, z: System, r: R.Receiver)
    requires Inv(c, z) && z.r.phase.Receiving? && r == z.r.(fin := r.fin) && FinOk(c, z, r.fin)
    ensures Inv(c, z.(r := r)) && ReceiverAdvances(c, z, z.(r := r))
  {
    ReceiverAdvanceKeeps(c, z, z.(r := r));
  }

  lemma ReadKeeps(c: Config, z: System, t: Turn)
    requires Valid(c) && Inv(c, z) && z.r.phase.Receiving? && Synced(z)
    requires !t.late && !(z.r.fin.Some? && z.r.recvBase >= z.r.fin.value)
    requires Enabled(z, ReceiverTurn(t))
    ensures Inv(c, StepReceiver(c, z, t)) && ReceiverAdvances(c, z, StepReceiver(c, z, t))
  {
    ReceiverLatches(c, z, RTP_DAT, t.arrivals);
    var q := ReadUntil(c.nb, z.r.seqBase, true, z.r.fin, RTP_DAT, t.arrivals);
    ReadShape(c, z, t, q);
    if q.hit.Some? {
      DataKeeps(c, z, DataStep(c, z, z.r.(fin := q.fin), q.hit.value), z.r.(fin := q.fin), q.hit.value);
    } else {
      LatchKeeps(c, z, z.r.(fin := q.fin));
    }
  }

  lemma ReceivingKeeps(c: Config, z: System, t: Turn)
    requires Valid(c) && Inv(c, z) && z.r.phase.Receiving? && Synced(z)
    requires Enabled(z, ReceiverTurn(t))
    ensures Inv(c, StepReceiver(c, z, t)) && ReceiverAdvances(c, z, StepReceiver(c, z, t))
  {
    if t.late {
      LateKeeps(c, z, t);
    } else if z.r.fin.Some? && z.r.recvBase >= z.r.fin.value {
      FinishShape(c, z, t);
      FinishKeeps(c, z, StepReceiver(c, z, t));
    } else {
      ReadKeeps(c, z, t);
    }
  }

  lemma ReceiverStepKeeps(c: Config, z: System, t: Turn)
    requires Valid(c) && Inv(c, z) && Enabled(z, ReceiverTurn(t))
    ensures Inv(c, StepReceiver(c, z, t)) && ReceiverAdvances(c, z, StepReceiver(c, z, t))
  {
    if z.r.phase.Listening? {
      ListeningKeeps(c, z, t);
    } else if z.r.phase.Accepting? {
      AcceptingKeeps(c, z, t);
    } else if z.r.phase.Receiving? {
      ReceivingKeeps(c, z, t);
    } else {
      assert StepReceiver(c, z, t).toS == z.toS;
    }
  }

  // ---------------------------------------------------------------- processes that stop

  lemma StoppedSender(c: Config, z: System, y: System, w: System)
    requires Inv(c, w) && w.r == z.r && w.written == z.written && w.toS == z.toS
    requires y.s == w.s.(phase := S.Failed) && y.r == z.r && y.written == z.written && y.toS == z.toS && y.toR <= w.toR
    ensures Inv(c, y)
  {
    forall p | p in y.toR ensures ToReceiver(c, y, p) {
      assert ToReceiver(c, w, p);
    }
    forall p | p in y.toS ensures ToSender(c, y, p) {
      assert ToSender(c, w, p);
    }
    assert y.r.phase.Receiving? ==> MapOk(c, y);
  }

  lemma SenderStopKeeps(c: Config, z: System, y: System, t: Turn, sends: nat)
    requires Valid(c) && Inv(c, z) && SenderStops(c, z, y, t, sends)
    ensures Inv(c, y)
  {
    SenderStepKeeps(c, z, t);
    SenderStopsSends(c, z, y, t, sends);
    StoppedSender(c, z, y, StepSender(c, z, t));
  }

  /** The receiver sends at most one packet a turn. */
  lemma OneReply(c: Config, z: System, t: Turn)
    requires Inv(c, z)
    ensures |ReceiverOut(c, z, t)| <= 1
  {
  }

  lemma StoppedReceiver(c: Config, z: System, y: System, w: System)
    requires Inv(c, z) && Inv(c, w) && w.s == z.s && w.toR == z.toR && Expected(c, z) <= Expected(c, w)
    requires Synced(z) ==> Synced(w)
    requires y.r == w.r.(phase := R.Failed) && y.s == z.s && y.toR == z.toR && y.toS == z.toS
    requires y.written == w.written || y.written == z.written
    requires z.written.Some? ==> y.written.Some?
    ensures Inv(c, y)
  {
    forall p | p in y.toR ensures ToReceiver(c, y, p) {
      assert ToReceiver(c, z, p);
    }
    forall p | p in y.toS ensures ToSender(c, y, p) {
      assert ToSender(c, z, p);
    }
  }

  lemma ReceiverStopKeeps(c: Config, z: System, y: System, t: Turn, sends: nat, saved: bool)
    requires Valid(c) && Inv(c, z) && ReceiverStops(c, z, y, t, sends, saved)
    ensures Inv(c, y)
  {
    ReceiverStepKeeps(c, z, t);
    OneReply(c, z, t);
    assert z.toS + Sending(ReceiverOut(c, z, t)[..sends]) == z.toS;
    StoppedReceiver(c, z, y, StepReceiver(c, z, t));
  }

  // ---------------------------------------------------------------- runs

  lemma StepInv(c: Config, z: System, l: Label)
    requires Valid(c) && Inv(c, z) && Enabled(z, l)
    ensures Inv(c, Step(c, z, l))
  {
    match l
    case SenderTurn(t) => SenderStepKeeps(c, z, t);
    case ReceiverTurn(t) => ReceiverStepKeeps(c, z, t);
  }

  lemma {:induction false} RunInv(c: Config, z: System, labels: seq<Label>)
    requires Valid(c) && Inv(c, z) && Allowed(c, z, labels)
    ensures Inv(c, Exec(c, z, labels))
    decreases |labels|
  {
    if |labels| > 0 {
      RunInv(c, z, labels[..|labels| - 1]);
      StepInv(c, Exec(c, z, labels[..|labels| - 1]), labels[|labels| - 1]);
    }
  }

  lemma EventInv(c: Config, z: System, e: Event, y: System)
    requires Valid(c) && Inv(c, z) && Happens(c, z, e, y)
    ensures Inv(c, y)
  {
    match e
    case Turning(l) => StepInv(c, z, l);
    case SenderStopping(t, sends) => SenderStopKeeps(c, z, y, t, sends);
    case ReceiverStopping(t, sends, saved) => ReceiverStopKeeps(c, z, y, t, sends, saved);
  }

  lemma FollowsInv(c: Config, z: System, y: System)
    requires Valid(c) && Inv(c, z) && Follows(c, z, y)
    ensures Inv(c, y)
  {
    var e :| Happens(c, z, e, y);
    EventInv(c, z, e, y);
  }

  lemma {:induction false} BehaviourInv(c: Config, states: seq<System>, i: nat)
    requires Valid(c) && Behaviour(c, states) && i < |states|
    ensures Inv(c, states[i])
    decreases i
  {
    if i == 0 {
      InitInv(c);
    } else {
      BehaviourInv(c, states, i - 1);
      assert FollowsAt(c, states, i - 1);
      FollowsInv(c, states[i - 1], states[i]);
    }
  }

  /** Every run keeps the invariant, whatever the channels lose, repeat or reorder, and wherever a process stops. */
  lemma ReachableInv(c: Config, z: System)
    requires Valid(c) && Reachable(c, z)
    ensures Inv(c, z)
  {
    var states :| Behaviour(c, states) && z == states[|states| - 1];
    BehaviourInv(c, states, |states| - 1);
  }

  lemma RunKeeps(c: Config, labels: seq<Label>)
    requires Valid(c) && Allowed(c, Init(c), labels)
    ensures Inv(c, Exec(c, Init(c), labels))
  {
    ReachableInit(c);
    RunReachable(c, Init(c), labels);
    ReachableInv(c, Exec(c, Init(c), labels));
  }
}
