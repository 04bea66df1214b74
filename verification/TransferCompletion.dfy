/** Runs that complete: from every state in which both loops are running, and from the very beginning, for exactly
    the transfers whose numbers the receiver can take. */
module TransferCompletion {
  import opened SequenceNumbers
  import opened Packets
  import opened TransferSystem
  import opened TransferInvariant
  import opened TransferProgress
  import S = SenderSide
  import R = ReceiverSide

  /** A turn in which nothing arrives, one whose deadline has passed, and one in which a single packet arrives. */
  const QUIET := Turn(false, false, [], false)
  const TIMEOUT := Turn(false, true, [], false)
  const LATE := Turn(true, false, [], false)

  function Arrival(p: Packet): Turn {
    Turn(false, false, [p], false)
  }

  lemma ArrivalIsFirst(p: Packet)
    ensures FirstOf(p.flags, Arrival(p).arrivals) == Some(p)
    ensures forall flags :: flags != p.flags ==> FirstOf(flags, Arrival(p).arrivals) == None
  {
  }

  // ---------------------------------------------------------------- a round is always possible

  lemma QuietTimeout(c: Config, z: System)
    requires Valid(c) && Keyed(c) && Active(c, z)
    ensures var y := StepSender(c, z, TIMEOUT);
            && Active(c, y) && y.s.base == z.s.base && z.s.base < y.s.next
            && (forall k :: y.s.base <= k < y.s.next ==> k in c.packets && c.packets[k] in y.toR)
  {
    var m := S.SendingTurn(c.nb, z.s, TIMEOUT);
    SendTurnActive(c, z, TIMEOUT);
    SendingTurnShape(c, z, TIMEOUT, m);
    SendingStepShape(c, z, TIMEOUT, m);
    var filled := S.FillWindow(z.s, true);
    FillShape(c, z, true);
    NothingRead(c.nb, filled.s);
    forall k | z.s.base <= k < m.s.next ensures k in c.packets && c.packets[k] in Sending(m.out) {
      TimeoutResendsWindow(c, z, TIMEOUT, k);
      assert m.out == filled.out + [];
    }
  }

  lemma NothingRead(nb: Numbering, s: S.Sender)
    ensures S.AwaitAck(nb, s, []) == S.Move(s.(phase := if s.base <= s.highest then S.Sending else S.Sent), [])
  {
  }

  function Deliveries(c: Config, from: int, to: int): (turns: seq<Turn>)
    requires from <= to && forall k :: from <= k < to ==> k in c.packets
    ensures |turns| == to - from
  {
    seq(to - from, i requires 0 <= i < to - from => Arrival(c.packets[from + i]))
  }

  lemma DeliveriesDeliver(c: Config, from: int, to: int) returns (numbers: seq<int>)
    requires Keyed(c) && c.x + 1 <= from <= to <= End(c)
    ensures Deliver(c, Deliveries(c, from, to), numbers) && Spans(numbers, from, to)
  {
    var turns := Deliveries(c, from, to);
    numbers := seq(to - from, i => from + i);
    forall i | 0 <= i < |turns| ensures Reads(c, turns[i], numbers[i]) {
      assert IsData(c, c.packets[from + i], from + i);
      ArrivalIsFirst(c.packets[from + i]);
    }
    forall k | from <= k < to ensures k in numbers {
      assert numbers[k - from] == k;
    }
  }

  lemma DeliveriesSent(c: Config, z: System, from: int, to: int)
    requires from <= to && forall k :: from <= k < to ==> k in c.packets && c.packets[k] in z.toR
    ensures AllSent(z, Deliveries(c, from, to))
  {
    var turns := Deliveries(c, from, to);
    forall i, p | 0 <= i < |turns| && p in turns[i].arrivals ensures p in z.toR {
      assert turns[i] == Arrival(c.packets[from + i]);
    }
  }

  ghost predicate AllSent(z: System, turns: seq<Turn>) {
    forall i, p :: 0 <= i < |turns| && p in turns[i].arrivals ==> p in z.toR
  }

  /** Receiver turns may read anything that has been sent: reading takes nothing out of the channel. */
  lemma {:induction false} AllowedTurns(c: Config, z: System, turns: seq<Turn>)
    requires AllSent(z, turns)
    ensures Allowed(c, z, ReceiverLabels(turns)) && Exec(c, z, ReceiverLabels(turns)).toR == z.toR
    decreases |turns|
  {
    if |turns| > 0 {
      var front, last := turns[..|turns| - 1], turns[|turns| - 1];
      SentBefore(z, turns);
      AllowedTurns(c, z, front);
      ReceiverLabelsThen(turns);
      ExecThen(c, z, ReceiverLabels(front), ReceiverTurn(last));
    }
  }

  lemma SentBefore(z: System, turns: seq<Turn>)
    requires AllSent(z, turns) && |turns| > 0
    ensures AllSent(z, turns[..|turns| - 1]) && forall p :: p in turns[|turns| - 1].arrivals ==> p in z.toR
  {
  }

  lemma RoundAllowed(c: Config, z: System, round: Round)
    requires Enabled(z, SenderTurn(round.send))
    requires var y := StepSender(c, z, round.send);
             && Allowed(c, y, ReceiverLabels(round.deliveries))
             && Enabled(Exec(c, y, ReceiverLabels(round.deliveries)), SenderTurn(round.take))
    ensures Allowed(c, z, RoundLabels(round))
  {
    var first, middle, last := [SenderTurn(round.send)], ReceiverLabels(round.deliveries), [SenderTurn(round.take)];
    ExecOne(c, z, first[0]);
    ExecAppend(c, z, first, middle);
    ExecOne(c, Exec(c, z, first + middle), last[0]);
    ExecAppend(c, z, first + middle, last);
  }

  /** Everything outstanding can be delivered, and the last ACK read. */
  lemma WindowCanArrive(c: Config, y: System) returns (turns: seq<Turn>, take: Turn)
    requires Valid(c) && Keyed(c) && Completable(c) && Active(c, y) && y.s.base < y.s.next
    requires forall k :: y.s.base <= k < y.s.next ==> k in c.packets && c.packets[k] in y.toR
    ensures Allowed(c, y, ReceiverLabels(turns)) && DeliversWindow(c, turns, y.s.base, y.s.next)
    ensures var w := Exec(c, y, ReceiverLabels(turns));
            && Enabled(w, SenderTurn(take)) && !take.late && FirstOf(RTP_ACK, take.arrivals) == Some(LastAck(c, w))
  {
    turns := Deliveries(c, y.s.base, y.s.next);
    DeliveriesSent(c, y, y.s.base, y.s.next);
    AllowedTurns(c, y, turns);
    var numbers := DeliveriesDeliver(c, y.s.base, y.s.next);
    WindowDelivered(c, y, turns, numbers);
    take := TakesLast(c, Exec(c, y, ReceiverLabels(turns)));
  }

  lemma TakesLast(c: Config, w: System) returns (take: Turn)
    requires Acknowledged(c, w)
    ensures Enabled(w, SenderTurn(take)) && !take.late && FirstOf(RTP_ACK, take.arrivals) == Some(LastAck(c, w))
  {
    ArrivalIsFirst(LastAck(c, w));
    take := Arrival(LastAck(c, w));
  }

  /** Whenever both loops are running, a complete round can follow. */
  lemma RoundExists(c: Config, z: System) returns (round: Round)
    requires Valid(c) && Completable(c) && Active(c, z)
    ensures Allowed(c, z, RoundLabels(round)) && Complete(c, z, round)
  {
    PackedIsKeyed(c);
    QuietTimeout(c, z);
    var turns, take := WindowCanArrive(c, StepSender(c, z, TIMEOUT));
    round := Round(TIMEOUT, turns, take);
    RoundAllowed(c, z, round);
  }

  // ---------------------------------------------------------------- from the send loop to the end

  lemma RoundLeaves(c: Config, z: System, round: Round) returns (y: System)
    requires Valid(c) && Completable(c) && Active(c, z)
    requires Allowed(c, z, RoundLabels(round)) && Complete(c, z, round)
    ensures y == Exec(c, z, RoundLabels(round)) && Inv(c, y) && y.r.phase.Receiving?
    ensures Remaining(c, y) < Remaining(c, z)
    ensures y.s.phase.Sending? || y.s.phase.Closing?
  {
    PackedIsKeyed(c);
    RoundProgress(c, z, round);
    var sent, w := RoundRun(c, z, round);
    SendTurnActive(c, z, round.send);
    var numbers :| Deliver(c, round.deliveries, numbers) && Spans(numbers, sent.s.base, sent.s.next);
    WindowDelivered(c, sent, round.deliveries, numbers);
    SendTurnActive(c, w, round.take);
    SendTurnEnds(c, w, round.take);
    y := StepSender(c, w, round.take);
  }

  lemma SendTurnEnds(c: Config, z: System, t: Turn)
    requires Valid(c) && Keyed(c) && Active(c, z) && !t.late && Enabled(z, SenderTurn(t))
    ensures StepSender(c, z, t).s.phase.Sending? || StepSender(c, z, t).s.phase.Closing?
  {
    var m := S.SendingTurn(c.nb, z.s, t);
    SendingTurnShape(c, z, t, m);
    SendingStepShape(c, z, t, m);
  }

  /** From any state in which both loops are running, rounds lead to the end of the send loop. */
  lemma {:induction false} SendingEnds(c: Config, z: System) returns (labels: seq<Label>)
    requires Valid(c) && Completable(c) && Active(c, z)
    ensures Allowed(c, z, labels)
    ensures var y := Exec(c, z, labels); Inv(c, y) && y.s.phase.Closing? && y.r.phase.Receiving?
    decreases Remaining(c, z)
  {
    var round := RoundExists(c, z);
    var y := RoundLeaves(c, z, round);
    labels := RoundLabels(round);
    if y.s.phase.Sending? {
      var rest := SendingEnds(c, y);
      ExecAppend(c, z, labels, rest);
      labels := labels + rest;
    }
  }

  /** The closing of both ends: the FIN again, its arrival, the receiver's end, and the FIN&ACK. */
  lemma QuietClose(c: Config, z: System)
    requires Valid(c) && Inv(c, z) && z.s.phase.Closing? && z.r.phase.Receiving?
    ensures var y := StepSender(c, z, QUIET);
            Inv(c, y) && y.s.phase.Closing? && y.r == z.r && Header(Encode(c.nb, End(c)), RTP_FIN) in y.toR
  {
    SenderStepKeeps(c, z, QUIET);
    var out := [Header(Encode(c.nb, End(c)), RTP_FIN)];
    assert out[0] in Sending(out);
    assert S.Iterate(c.nb, z.s, QUIET) == S.Move(z.s, out);
  }

  lemma FinArrives(c: Config, z: System, fin: Packet)
    requires Valid(c) && Inv(c, z) && z.s.phase.Closing? && z.r.phase.Receiving?
    requires fin == Header(Encode(c.nb, End(c)), RTP_FIN) && fin in z.toR
    requires z.r.fin.None?
    ensures var y := StepReceiver(c, z, Arrival(fin));
            Inv(c, y) && y.s == z.s && y.r.phase.Receiving? && y.r.fin.Some?
  {
    ReceiverStepKeeps(c, z, Arrival(fin));
    ReadFin(c.nb, z.r.seqBase, fin);
  }

  lemma ReadFin(nb: Numbering, seqBase: int, fin: Packet)
    requires fin.flags == RTP_FIN
    ensures ReadUntil(nb, seqBase, true, None, RTP_DAT, Arrival(fin).arrivals)
         == Reading(Some(Decode(nb, seqBase, fin.number)), None)
  {
    assert [fin][1..] == [];
    assert ReadUntil(nb, seqBase, true, Some(Decode(nb, seqBase, fin.number)), RTP_DAT, [])
        == Reading(Some(Decode(nb, seqBase, fin.number)), None);
  }

  lemma ReceiverEnds(c: Config, z: System)
    requires Valid(c) && Inv(c, z) && z.s.phase.Closing? && z.r.phase.Receiving? && z.r.fin.Some?
    ensures var y := StepReceiver(c, z, QUIET);
            && Inv(c, y) && y.s == z.s && y.written.Some?
            && Header(Encode(c.nb, End(c)), RTP_FIN_ACK) in y.toS
  {
    ReceiverStepKeeps(c, z, QUIET);
    FinishShape(c, z, QUIET);
    Numbers(c);
    var m := R.StartWaitClose(c.nb, R.EndReceive(z.r.(phase := R.Received)));
    assert m.out[0] in Sending(m.out);
  }

  lemma FinAckArrives(c: Config, z: System, finAck: Packet)
    requires Valid(c) && Inv(c, z) && z.s.phase.Closing?
    requires finAck == Header(Encode(c.nb, End(c)), RTP_FIN_ACK) && finAck in z.toS
    ensures StepSender(c, z, Arrival(finAck)).s.phase.Closed?
  {
    ReadUntilHit(c.nb, z.s.seqBase, true, z.s.fin, RTP_FIN_ACK, Arrival(finAck).arrivals);
    ArrivalIsFirst(finAck);
  }

  /** When the sender has reached close and the receiver is still in its loop, both can finish. */
  lemma ClosingEnds(c: Config, z: System) returns (labels: seq<Label>)
    requires Valid(c) && Inv(c, z) && z.s.phase.Closing? && z.r.phase.Receiving?
    ensures Allowed(c, z, labels) && Exec(c, z, labels).s.phase.Closed?
  {
    var fin, finAck := Header(Encode(c.nb, End(c)), RTP_FIN), Header(Encode(c.nb, End(c)), RTP_FIN_ACK);
    QuietClose(c, z);
    var y := StepSender(c, z, QUIET);
    labels := [SenderTurn(QUIET)];
    ExecOne(c, z, labels[0]);
    if y.r.fin.None? {
      FinArrives(c, y, fin);
      ExecThen(c, z, labels, ReceiverTurn(Arrival(fin)));
      y, labels := StepReceiver(c, y, Arrival(fin)), labels + [ReceiverTurn(Arrival(fin))];
    }
    ReceiverEnds(c, y);
    ExecThen(c, z, labels, ReceiverTurn(QUIET));
    y, labels := StepReceiver(c, y, QUIET), labels + [ReceiverTurn(QUIET)];
    FinAckArrives(c, y, finAck);
    ExecThen(c, z, labels, SenderTurn(Arrival(finAck)));
    labels := labels + [SenderTurn(Arrival(finAck))];
  }

  /** From every reachable state in which both loops are running, the transfer can still be completed. */
  lemma CanFinish(c: Config, z: System) returns (labels: seq<Label>)
    requires Valid(c) && Completable(c) && Active(c, z)
    ensures Allowed(c, z, labels) && Exec(c, z, labels).s.phase.Closed?
  {
    labels := SendingEnds(c, z);
    var rest := ClosingEnds(c, Exec(c, z, labels));
    ExecAppend(c, z, labels, rest);
    labels := labels + rest;
  }

  // ---------------------------------------------------------------- the handshake

  lemma SynArrives(c: Config, z: System, syn: Packet)
    requires Valid(c) && Inv(c, z) && z.s.phase.Connecting? && z.r.phase.Listening?
    requires syn == Header(c.x, RTP_SYN) && syn in z.toR
    ensures var y := StepReceiver(c, z, Arrival(syn));
            && Inv(c, y) && y.s == z.s && y.toR == z.toR && y.r.phase.Accepting?
            && Header(Encode(c.nb, c.x + 1), RTP_SYN_ACK) in y.toS
  {
    ReceiverStepKeeps(c, z, Arrival(syn));
    ReadUntilHit(c.nb, z.r.seqBase, z.r.connected, z.r.fin, RTP_SYN, Arrival(syn).arrivals);
    ArrivalIsFirst(syn);
    Numbers(c);
    var out := [Header(Encode(c.nb, c.x + 1), RTP_SYN_ACK)];
    assert out[0] in Sending(out);
  }

  lemma SynAckArrives(c: Config, z: System, synAck: Packet)
    requires Valid(c) && Inv(c, z) && z.s.phase.Connecting? && z.r.phase.Accepting?
    requires synAck == Header(Encode(c.nb, c.x + 1), RTP_SYN_ACK) && synAck in z.toS
    ensures var y := StepSender(c, z, Arrival(synAck));
            && Inv(c, y) && y.r == z.r && y.s.phase.Settling?
            && Header(Encode(c.nb, c.x + 1), RTP_ACK) in y.toR
  {
    SenderStepKeeps(c, z, Arrival(synAck));
    ReadUntilHit(c.nb, z.s.seqBase, true, z.s.fin, RTP_SYN_ACK, Arrival(synAck).arrivals);
    ArrivalIsFirst(synAck);
    Numbers(c);
    var out := [Header(Encode(c.nb, c.x + 1), RTP_ACK)];
    assert out[0] in Sending(out);
  }

  lemma HandshakeAckArrives(c: Config, z: System, ack: Packet)
    requires Valid(c) && Inv(c, z) && z.r.phase.Accepting?
    requires ack == Header(Encode(c.nb, c.x + 1), RTP_ACK) && ack in z.toR
    ensures var y := StepReceiver(c, z, Arrival(ack)); Inv(c, y) && y.s == z.s && y.r.phase.Receiving?
  {
    ReceiverStepKeeps(c, z, Arrival(ack));
    ReadUntilHit(c.nb, z.r.seqBase, z.r.connected, z.r.fin, RTP_ACK, Arrival(ack).arrivals);
    ArrivalIsFirst(ack);
  }

  lemma SettlingEnds(c: Config, z: System)
    requires Valid(c) && Inv(c, z) && z.s.phase.Settling?
    ensures var y := StepSender(c, z, LATE);
            Inv(c, y) && y.r == z.r && (y.s.phase.Sending? || y.s.phase.Closing?)
  {
    SenderStepKeeps(c, z, LATE);
    if c.total == 0 {
      StartSendNothingShape(c, z, LATE);
    } else {
      StartSendShape(c, z, LATE);
    }
  }

  lemma HandshakeRun(c: Config) returns (labels: seq<Label>)
    requires Valid(c)
    ensures Allowed(c, Init(c), labels)
    ensures var y := Exec(c, Init(c), labels);
            Inv(c, y) && (y.s.phase.Sending? || y.s.phase.Closing?) && y.r.phase.Receiving?
  {
    var syn := Header(c.x, RTP_SYN);
    var synAck, ack := Header(Encode(c.nb, c.x + 1), RTP_SYN_ACK), Header(Encode(c.nb, c.x + 1), RTP_ACK);
    var z := Init(c);
    InitInv(c);
    assert [syn][0] in Sending([syn]);
    SynArrives(c, z, syn);
    labels := [ReceiverTurn(Arrival(syn))];
    ExecOne(c, z, labels[0]);
    var y := StepReceiver(c, z, Arrival(syn));
    SynAckArrives(c, y, synAck);
    ExecThen(c, z, labels, SenderTurn(Arrival(synAck)));
    y, labels := StepSender(c, y, Arrival(synAck)), labels + [SenderTurn(Arrival(synAck))];
    HandshakeAckArrives(c, y, ack);
    ExecThen(c, z, labels, ReceiverTurn(Arrival(ack)));
    y, labels := StepReceiver(c, y, Arrival(ack)), labels + [ReceiverTurn(Arrival(ack))];
    SettlingEnds(c, y);
    ExecThen(c, z, labels, SenderTurn(LATE));
    labels := labels + [SenderTurn(LATE)];
  }

  lemma CompletingRun(c: Config) returns (labels: seq<Label>)
    requires Valid(c) && Completable(c)
    ensures Allowed(c, Init(c), labels) && Exec(c, Init(c), labels).s.phase.Closed?
  {
    labels := HandshakeRun(c);
    var y := Exec(c, Init(c), labels);
    var rest;
    if y.s.phase.Sending? {
      rest := CanFinish(c, y);
    } else {
      rest := ClosingEnds(c, y);
    }
    ExecAppend(c, Init(c), labels, rest);
    labels := labels + rest;
  }

  /** From `z` some run leads to a closed sender. */
  ghost predicate CanClose(c: Config, z: System) {
    exists labels :: Allowed(c, z, labels) && Exec(c, z, labels).s.phase.Closed?
  }

  /** A transfer whose receiver started above x and whose numbers pass 2^30 stays safe but never leaves the send
      loop: the receiver cannot take any number from 2^30 on. */
  lemma StuckBelowWrap(c: Config, z: System)
    requires Valid(c) && !Completable(c) && Reachable(c, z)
    ensures Base(c, z) <= Expected(c, z) <= WIRE < End(c)
    ensures !z.s.phase.Closing? && !z.s.phase.Closed? && z.written.None?
  {
    ReachableInv(c, z);
  }

  /** Exactly which transfers can be completed, whatever the file and the random number. */
  lemma CompletableExactly(c: Config)
    requires Valid(c)
    ensures CanClose(c, Init(c)) <==> Completable(c)
  {
    if Completable(c) {
      var labels := CompletingRun(c);
    } else if CanClose(c, Init(c)) {
      var labels :| Allowed(c, Init(c), labels) && Exec(c, Init(c), labels).s.phase.Closed?;
      ReachableInit(c);
      RunReachable(c, Init(c), labels);
      StuckBelowWrap(c, Exec(c, Init(c), labels));
    }
  }
}
